# mmn, verified

A Dafny model of the core of the mmn node and proofs about it. mmn is a Go chain in the style of
Solana: a proof-of-history clock orders entries, scheduled leaders turn them into blocks, validators
vote per slot, and a ledger applies a slot once. The model has four parts.

- **Clock, recorder, leader pipeline, checker** (`Poh`, `Recorder`, `Leader`, `LeaderProof`,
  `LeaderWitness`, `OneTick`, `Verify`, `Schedule`). The clock and its recorder are classes that are updated in
  place, and so is the validator that fills a buffer and assembles blocks. The main theorem is that, for
  every schedule and every interleaving of hashing, batching, flushing, slot starts, slot ends and follower resets, each
  block is what the checker accepts.
- **Blocks, votes, finalisation, ledger** (`BlockStore`, `Accounts`, `Content`, `Ledger`, `LedgerProof`,
  `Consensus`, `Node`, `NodeProof`, `Restart`). Handlers are broken into atomic actions that may
  interleave in any way and be cut short by a crash. The main theorems are at-most-once application, a
  quorum behind every commit, no committed slot left unapplied, conservation of balances, and unforked
  content versions.
- **Mempool, dedup cache, replay** (`Mempool`, `MempoolProof`, `MempoolRuns`, `PullSplit`, `Dedup`, `Replay`). The main
  theorems are that the four redundant structures agree in every run, that delivery is first in first
  out, that pending totals stay covered, and that stored transactions are not taken again.
- **Block sync** (`Sync`, `SyncProof`, `SyncSession`). A sender's loop, a receiver's ordering queue, and
  the theorem that a session leaves the receiver with exactly the sender's transfers applied.

Black boxes (SHA-256, JSON, base58, signatures, address checks) are the fields of `Base.Codec` or boolean
inputs; every theorem holds for all of them. `CollisionFree` says that no two transactions share a
transaction hash, and is named wherever it is needed. Time, the network and the key-value store are
inputs: a batch write replaces the database value at once.

Each class has a `View()` and its methods are proved against functions of the old view; the lemmas are
about those functions and about runs of them.

## Where the code does not do what one would expect

Each of these has its lemmas: the exact condition, or a run in which it happens, or both.

- A leader that stays ready across a slot it does not lead carries that slot's last tick into its next
  block, which then has one tick too many (`ExtraTickAfterGap`, `GapOpens`, `ExtraTickRun`).
- A slot start throws the pending list away, although its transactions have left the pool and are
  remembered as seen (`PulledInOrder`, `LostRun`).
- With one tick per slot, the tick of a led slot closes a block exactly when the slot before gave no block
  or an entry was flushed before the tick; in the first case the block holds that whole slot too, and so
  a second tick (`TickOfALedSlot`, `OneTickBlocks`, `OneTickRun`). A slot that closes none is dropped with
  its transactions if the next one is not led (`TickCloses`).
- The recorder drops an entry it has already hashed into the chain exactly when a tick may hold more than
  100 hashes (`DiscardsIffBeyondCap`).
- Quorums of the coded threshold, twice a third and at least one, need not meet (`ThresholdQuorums`).
- A vote in the node's own name that arrives before the block keeps the block from being applied
  (`OwnVoteFirst`, `HandlerApplies`).
- Sync that is interrupted between storing and finalising can apply a slot twice, and so can a commit that
  is interrupted by it between its check and its finalisation, since sync does not take the apply lock
  (`AtMostOnce`, `StepAppliesOnce`, `DoubleApply`, `SyncRace`).
- A pull lets go of the pool before it remembers what it took, and what comes again in between is
  admitted again (`SplitPulls`, `Readmission`).
- The block handler's reset of the clock is guarded by a condition that never holds (`ResetGuardFails`).
- A transfer to oneself is charged but not checked, so it can leave a total uncovered
  (`AdmissionSolvent`, `UncoveredSelfTransfer`).
- User content with an amount spoils its sender's pending total when it leaves the pool (`RemovalExact`,
  `CreditedContent`).
- After a restart, a stored transaction is certain to be refused again only if its nonce was at most 49
  ahead of the slot of its block (`ReplayRefused`, `RefusalIsCertain`).
- The newest finalised slot is overwritten by whatever is finalised last, and a restart before anything
  is finalised forgets the newest stored slot (`FinalizedStaysLatest`, `RestartKeepsLatest`).
- Arrival order matters for a slot that the receiver leads (`LedSlotOrderMatters`), and a receiver that
  leads the slot after a sync session goes on to make that block up (`Expecting` in `SyncDelivers`).
- A sync request that ends before it starts is served from just after its end (`SenderSends`).

## Model

| member | source | states |
|---|---|---|
| `Poh.PohClock.constructor` | poh/poh.go:33-54 | A new clock stands at the seed with a full budget. |
| `Poh.PohClock.Reset` | poh/poh.go:56-65 | Reset puts the clock at the seed with nothing counted and a full budget. |
| `Poh.PohClock.HashOnceInPlace` | poh/poh.go:71-75 | One hash: the chain advances, one more is counted, one less is left. |
| `Poh.PohClock.RecordMixin` | poh/poh.go:77-95 | A record mixes its hash in and emits an entry with the hashes counted so far, unless only the tick's own hash is left, when nothing changes. |
| `Poh.PohClock.TickIfDue` | poh/poh.go:97-116 | A tick is emitted exactly when one hash is left, and refills the budget. |
| `Poh.PohClock.AutoHashStep` | poh/poh.go:138-154 | Auto-hashing leaves the tick's own hash alone. |
| `Poh.PohClock.TickFastForward` | poh/poh.go:118-130 | Fast-forwarding returns the seed hashed once per hash of the ticks in between, a number computed in 64 bits, and leaves the clock at the start of a tick. |
| `Poh.BudgetLaw` | poh/poh.go:56-116 | From any reset and for every order of steps: the budget left is in 1..HashesPerTick, every entry has at least one hash, emitted, counted and left hashes fill the ticks exactly, and every prefix that ends in a tick holds exactly HashesPerTick hashes per tick. |
| `Poh.EntryCountBound` | poh/poh.go:77-116 | So every run emits fewer entries than HashesPerTick per started tick. |
| `Poh.QuietRunIsIteration` | poh/poh.go:97-154 | A run without records is plain iteration of the hash, once per hash accounted for. |
| `Poh.FastForwardMatchesQuietRun` | poh/poh.go:118-130 | Any transaction-free run with that many ticks ends at the hash that fast-forwarding computes. |
| `Poh.FastForwardComposes` | poh/poh_recorder.go:48-57 | Fast-forwarding from a to b and from b to c is fast-forwarding from a to c. |
| `Verify.VerifyEntries` | poh/verify.go:10-43 | No error exactly for lists that are short enough, well shaped entry by entry and linked hash by hash from the previous hash; otherwise the first offending entry is named. |
| `Verify.LinkedPrepend` | poh/verify.go:21-40 | A chain with one more entry in front is checked as that entry and then the rest from its hash. |
| `Verify.GenerateTickOnlyEntries` | poh/utils.go:7-27 | Entry i carries the chain after i + 1 whole ticks; no entries when either number is not positive. |
| `Verify.TickOnlyLinked` | poh/utils.go:7-27 | Generated entries are linked from their seed. |
| `Verify.TickOnlyAccepted` | poh/utils.go:7-27 | The checker accepts a generated slot exactly when it is empty or both settings are at most 100. |
| `Verify.TickOnlyEndsAtFastForward` | poh/utils.go:7-27 | A generated slot ends where fast-forwarding over as many ticks ends. |
| `Recorder.SlotHashQueue.constructor` | poh/slot_hash_queue.go:21-32 | The queue starts with the zero hash for slot 0. |
| `Recorder.SlotHashQueue.Put` | poh/slot_hash_queue.go:34-56 | A slot's hash is set; a new slot beyond the capacity evicts the slot that many below. |
| `Recorder.SlotHashQueue.Get` | poh/slot_hash_queue.go:58-61 | Lookup with the zero hash for an unknown slot. |
| `Recorder.PohRecorder.constructor` | poh/poh_recorder.go:25-35 | The recorder starts at the boundary after the latest slot. |
| `Recorder.PohRecorder.Reset` | poh/poh_recorder.go:37-46 | Reset drops entries, resets the clock, moves to the boundary after the slot and records its hash. |
| `Recorder.PohRecorder.FastForward` | poh/poh_recorder.go:48-57 | Fast-forwarding over whole slots hashes once per hash of their ticks, a number computed in 64 bits; only the clock changes. |
| `Recorder.PohRecorder.Record` | poh/poh_recorder.go:59-93 | A record appends its entry, or reports which limit or refusal stopped it, with the chain already advanced in the latter checks. |
| `Recorder.PohRecorder.Tick` | poh/poh_recorder.go:95-119 | A tick raises the tick height and at a slot end records the slot's boundary hash. |
| `Recorder.PohRecorder.DrainEntries` | poh/poh_recorder.go:125-132 | Draining hands over the entries and leaves none. |
| `Recorder.DiscardsIffBeyondCap` | poh/poh_recorder.go:70-119 | Some run hashes an entry into the chain and then drops it exactly when HashesPerTick exceeds 100. |
| `Recorder.FlushMaySplit` | poh/poh_service.go:35-54 | Draining and ticking may be separated by any recorder activity without effect exactly when one hash is left at the drain. |
| `Leader.Validator.constructor` | validator/validator.go:62-108 | A validator starts idle with empty buffers. |
| `Leader.Validator.WaitForSeed` | validator/validator.go:110-151 | The seed is the end of the stored block of the slot before if that turns up in time, else the newest known hash, from the recorder or else the store, run over the ticks up to there. |
| `Leader.Validator.OnLeaderSlotStart` | validator/validator.go:110-159 | Starting a leader slot settles on a seed, resets the recorder to it at the slot before, empties both buffers and makes the node ready. |
| `Leader.Validator.OnLeaderSlotEnd` | validator/validator.go:161-164 | Ending a leader slot makes the node not ready and leaves the buffers. |
| `Leader.Validator.HandleResetFromLeader` | validator/validator.go:242-253 | A follower of both slots resets its recorder; a leader of either does nothing. |
| `Leader.Validator.HandleEntries` | validator/validator.go:189-240 | Entries that end a led slot with a tick, on top of a non-empty buffer, become a block with the recorded previous hash; otherwise a ready leader of the current slot buffers them. |
| `Leader.Validator.PeekPending` | validator/validator.go:260-272 | The front of the pending list, at most as many as asked for. |
| `Leader.Validator.DropPending` | validator/validator.go:274-282 | The pending list without its front. |
| `Leader.Validator.LeaderBatch` | validator/validator.go:296-339 | A ready leader queues what it pulled, records the front of the queue and drops exactly what was recorded. |
| `Leader.Validator.TickAndFlush` | poh/poh_service.go:35-54 | Drained entries and the tick, if due, are handed over together. |
| `LeaderProof.StepKeepsInv` | validator/validator.go:189-240 | Every step keeps the pipeline invariant: log and buffer of the slot agree, its entries are linked from the slot boundary, its ticks match the tick height, and all blocks so far are right. |
| `LeaderProof.ProducedBlocksVerify` | validator/validator.go:189-240 | For every run: each block is for a led slot; it starts from the seed if its slot began with a reset and from the last entry hash of the block before if it began after a block; unless its slot began after a slot not led it has exactly ticksPerSlot ticks; and the checker accepts it from its own previous hash exactly when it has at most 100 entries and well-formed transactions and, after a slot not led, the hash chain loops over the extra tick. |
| `LeaderProof.ExtraTickAfterGap` | validator/validator.go:189-240 | A block whose slot did not begin at a reset has the right number of ticks exactly when the node led the slot before. |
| `LeaderProof.GapOpens` | validator/validator.go:232-238 | A ready node at the last tick of a slot it does not lead puts that tick first into the buffer of the next slot if it leads that. |
| `LeaderProof.PulledInOrder` | validator/validator.go:296-339 | For every run: transactions in blocks, buffer, recorder and pending list are, in this order, those pulled from the pool without the pending lists that slot starts threw away; every pulled transaction is there or was thrown away; and all are there exactly when every slot start that took effect found nothing pending. |
| `LeaderProof.FlowStart` | validator/validator.go:154-158 | A slot start loses exactly the pending list. |
| `LeaderWitness.ExtraTickRun` | validator/validator.go:232-238 | A run that hands over a block with one tick too many. |
| `LeaderWitness.LostRun` | validator/validator.go:154-158 | A run in which a slot start throws a pulled transaction away: it is lost, and in no block, buffer or list. |
| `LeaderWitness.OneTickRun` | validator/validator.go:195-196 | A run with one tick per slot and nothing to record, in which a slot yields no block and the next one a block with two ticks. |
| `OneTick.BufferOpens` | validator/validator.go:189-240 | With one tick per slot the buffer is non-empty exactly when the slot is led, a seed was taken, and the slot before gave no block or an entry of this one has been flushed. |
| `OneTick.TickCloses` | validator/validator.go:189-240 | With one tick per slot a tick closes a block, of everything buffered and recorded, exactly when the buffer is not empty; otherwise the whole slot goes to the next one if that is led and is dropped if not. |
| `OneTick.OneTickBlocks` | validator/validator.go:189-240 | For every run with one tick per slot and 2 to 100 hashes per tick: each block is for a led slot; it holds one tick of its own and, after a slot that gave no block, the whole of that slot with its tick; the checker accepts it exactly when it has at most 100 entries, well-formed transactions, and such earlier entries happen to chain from the hash at which they end; and it starts from the seed or from the block before. |
| `OneTick.TickOfALedSlot` | validator/validator.go:189-240 | After any such run, a tick hands over a block for its slot exactly when the slot is led after a seed and the slot before gave no block or an entry was flushed before the tick; the block has one tick more than were buffered, and if none was, the checker accepts it exactly when its transactions are well formed. |
| `Schedule.LeaderSchedule.Validate` | poh/lead_schedule.go:73-90 | Sorts in place, keeps the entries, and accepts exactly when each range starts after the one before ends. |
| `Schedule.LeaderSchedule.LeaderAt` | poh/lead_schedule.go:33-51 | The binary search finds what a linear scan over the entries finds for the normalised slot. |
| `Schedule.LeaderSchedule.IsLeaderAt` | poh/lead_schedule.go:96-99 | Yes exactly when the scan finds this leader. |
| `Schedule.NewLeaderSchedule` | poh/lead_schedule.go:23-31 | A schedule is made of exactly the given entries, sorted and validated, and spans to the end of the last; or they overlap once sorted. |
| `Schedule.ChainedDisjoint` | poh/lead_schedule.go:73-90 | In a validated schedule no slot is in two entries. |
| `Schedule.ValidationIsDisjointness` | poh/lead_schedule.go:73-90 | On proper ranges validation rejects exactly the overlapping schedules. |
| `Schedule.Periodic` | poh/lead_schedule.go:33-51 | The answer repeats with period maxSlot. |
| `Accounts.ApplyTxInPlace` | ledger/ledger.go:270-296 | Updating account objects in place, with sender and recipient possibly the same object, is the transfer on values: open both, check, debit, credit, set the nonce. |
| `Accounts.OverlayIsSequential` | ledger/ledger.go:133-197 | Applying transfers to a copy of the accounts they touch and writing it back is applying them one at a time to the whole store, with the same outcome for each. |
| `Accounts.TransferConserves` | ledger/ledger.go:270-296 | While the total fits in 256 bits a transfer keeps it, succeeds exactly when the sender can pay, moves exactly the amount, records the nonce, and otherwise changes no balance; transfers to oneself included. |
| `Accounts.TransfersConserve` | ledger/ledger.go:270-296 | Over any list of transfers the total is kept and every balance is its old value plus its net flow. |
| `Accounts.GenesisTotal` | ledger/ledger.go:75-87 | The genesis total is the sum of the allocations. |
| `Accounts.CreateFromGenesis` | ledger/ledger.go:52-86 | On any account store genesis succeeds exactly when the addresses are new and distinct, and then adds exactly the allocations; otherwise it leaves the accounts before the first clash. |
| `Content.ValidateUserContent` | ledger/ledger.go:299-360 | The early exits compute the compare-and-swap of the newest version. |
| `Content.ContentOverlay` | ledger/ledger.go:199-222 | Validating a block's contents against only what they name and writing back is validating them one at a time against the whole store. |
| `Content.AcceptExtends` | ledger/ledger.go:299-360 | An accepted content extends exactly its own line of versions, by one at its end. |
| `Content.ChainsKept` | ledger/ledger.go:209-222 | Lines stay unforked over any list of contents, several versions of one root included. |
| `Content.WalkEndsAtRoot` | ledger/ledger.go:299-360 | Following parents from the newest version ends at the root. |
| `BlockStore.BroadcastedBlockToBlock` | utils/convert.go:37-67 | Entries keep their order, numbers and hashes; transactions become their hashes. |
| `BlockStore.ConvertBlockToBroadcasted` | p2p/block.go:188-215 | Each entry gets the stored transactions of its hashes back, in order. |
| `BlockStore.GenericBlockStore.constructor` | store/blockstore.go:93-130 | Reopening takes the latest slots from the stored metadata. |
| `BlockStore.GenericBlockStore.AddBlockPending` | store/blockstore.go:308-409 | A new slot's block, transactions and metas are written in one batch; a known slot changes nothing. |
| `BlockStore.GenericBlockStore.PutEntries` | store/blockstore.go:338-376 | The batch holds exactly the transactions and metas of the entries that are not ticks. |
| `BlockStore.GenericBlockStore.FinalizeBlock` | store/blockstore.go:424-496 | Block status, accounts, metas, versions and the finalised marker are written in one batch. |
| `BlockStore.GetBatchOfHashes` | store/tx_store.go:95-138 | Asking for the hashes of transactions gives them back exactly when all are stored. |
| `BlockStore.BlockRoundTrip` | p2p/block.go:188-215 | A stored block converted back, at any later time, has the same entries exactly when the transactions inside tick entries, if any, are stored too; so the checker gives the same verdict. |
| `Ledger.LedgerObject.CollectHashes` | ledger/ledger.go:121-126 | The hashes of all entries that are not ticks, in order. |
| `Ledger.LedgerObject.CollectAddresses` | ledger/ledger.go:133-145 | Senders and recipients of the transfers, each once. |
| `Ledger.LedgerObject.LoadAccounts` | ledger/ledger.go:147-150 | Fresh objects for exactly those of the addresses that have an account. |
| `Ledger.LedgerObject.ApplyTransfers` | ledger/ledger.go:152-197 | Transfers are applied to the objects in order, each with its status; contents are set aside. |
| `Ledger.LedgerObject.ApplyContents` | ledger/ledger.go:209-220 | Contents are validated in order, each with its status. |
| `Ledger.LedgerObject.Finalise` | ledger/ledger.go:103-258 | A block marked InvalidPoH changes nothing; any other is applied to copies and written back in one batch. |
| `LedgerProof.FinalizeIsSequential` | ledger/ledger.go:103-258 | Finalising is applying the block's transfers one at a time to the whole account store and its contents to the whole version table; accounts not mentioned are untouched and exactly its slot becomes finalised. |
| `LedgerProof.TransferStatus` | ledger/ledger.go:152-191 | A transfer's stored status is its outcome at its place in that sequence. |
| `LedgerProof.RunConserves` | ledger/ledger.go:103-258 | Over any run of storing and finalising, in any order and even repeatedly, the total of balances is kept and nothing wraps. |
| `LedgerProof.RunKeepsChains` | ledger/ledger.go:209-222 | In every run that accepts no content hash twice, the accepted versions of each root form one line from the root to the recorded newest hash, each naming its predecessor, with one sender and recipient. |
| `LedgerProof.RunKeepsAccepted` | store/blockstore.go:338-376 | In every run every accepted content is, and stays, among the stored transactions. |
| `LedgerProof.RunWalksToRoot` | ledger/ledger.go:209-222 | In every run that accepts no content hash twice, following parents from the recorded newest hash of any root through the stored transactions ends at that root. |
| `LedgerProof.ContentStatus` | ledger/ledger.go:214-220 | A content's stored status is its outcome when the contents are validated one at a time against the whole store. |
| `Restart.FinalizedStaysLatest` | store/blockstore.go:476-490 | The newest finalised slot stays the greatest one exactly when the slot being finalised is not below it. |
| `Restart.RestartKeepsLatest` | store/blockstore.go:93-130 | In every run that finalises in ascending order both counters are the greatest stored and finalised slots, and reopening the database brings them back exactly when nothing has been stored or something has been finalised, above slot 0. |
| `Consensus.Threshold` | consensus/collector.go:26-42 | The coded threshold is at least one. |
| `Consensus.AddVote` | consensus/collector.go:44-75 | A vote counts exactly when it is signed and its voter is new for the slot; it commits exactly when the voters reach the threshold, whatever block hash they name. |
| `Consensus.Cleanup` | consensus/collector.go:91-117 | Exactly the slots more than the retention below the current one are forgotten. |
| `Consensus.Collector.constructor` | consensus/collector.go:26-42 | A collector starts without votes and with the coded threshold. |
| `Consensus.Collector.Add` | consensus/collector.go:44-75 | The in-place update is AddVote on the table. |
| `Consensus.Collector.CleanupOldVotes` | consensus/collector.go:91-117 | Deleting old slots one by one is Cleanup. |
| `Consensus.ThresholdQuorums` | consensus/collector.go:26-42 | Any two quorums meet exactly when n / 3 exceeds n modulo 3, or n is at most 1. |
| `Node.NodeObject.ApplyDataToBlock` | p2p/pubsub.go:207-233 | A slot that is applied already or unknown changes nothing; otherwise it becomes the current slot of the pool and its block is finalised. |
| `Node.NodeObject.Process` | p2p/vote.go:65-85 | A vote is counted and, if it commits a known block, the block is applied. |
| `Node.NodeObject.OnBlockReceived` | p2p/pubsub.go:36-116 | A new block that passes its checks and whose transactions the pool does not refuse is stored with the verdict on its proof of history, a good one is remembered and cleaned out of the pool, and it is voted for; any other block changes nothing. |
| `Node.NodeObject.CleanPool` | p2p/pubsub.go:94-98 | The dedup hashes of a block join the cache and its transactions leave the pool. |
| `Node.CollectTxs` | p2p/pubsub.go:56-65 | All transactions of the block, in order. |
| `Node.ResetGuardFails` | p2p/pubsub.go:83-88 | After a block has been stored it is never newer than the newest stored slot, so the guarded reset of the clock never comes about. |
| `NodeProof.AtMostOnce` | p2p/pubsub.go:207-233 | In every run, crashes, failed writes, interrupted syncs and interrupted commits included: the finalised markers are exactly the applied slots, the accounts are exactly what the applied transfers make of the initial ones, blocks marked InvalidPoH are never applied, and the total is kept; no slot is applied twice, and none finalised at the start again, exactly when no finalisation, of sync or under the apply lock, finds its slot finalised in the meantime. |
| `NodeProof.StepAppliesOnce` | p2p/pubsub.go:207-233 | A single step applies a slot again exactly when it is the finalisation of an interrupted sync, or of a commit after its check, whose slot has been finalised in the meantime. |
| `NodeProof.WholeSyncAppliesOnce` | p2p/block_ordering.go:117-123 | With sync storing and finalising in one action no slot is ever applied twice. |
| `NodeProof.VoteHandlerIsActions` | p2p/vote.go:65-85 | An uninterrupted vote handler is the actions of the protocol, one after the other. |
| `NodeProof.BlockHandlerIsActions` | p2p/pubsub.go:36-116 | So is an uninterrupted block handler. |
| `NodeProof.WriteApplies` | p2p/pubsub.go:207-233 | What a finalising write of a known good block does, be it of sync or under the apply lock. |
| `NodeProof.DoubleApply` | p2p/block_ordering.go:117-123 | With an interrupted sync and a commit past its check under way for one slot, the slot is applied twice, whichever finalises first. |
| `NodeProof.SyncRace` | p2p/pubsub.go:207-233 | One vote is enough to get there. |
| `NodeProof.CommitsHaveQuorums` | p2p/vote.go:65-85 | In every run each slot applied because it was committed had by then a threshold of distinct voters whose signed votes for it were counted since the node was last started. |
| `NodeProof.CommittedSlotsApply` | p2p/pubsub.go:36-116 | In every run with successful writes and no outside vote in the node's name, crashes and clean-ups included: a slot whose good block a voting handler stored and which has a threshold of votes is applied or still worked on, and applied once nothing is under way. |
| `NodeProof.OwnVoteFirst` | p2p/vote.go:65-85 | A vote in the node's own name before the block leaves the slot committed, idle and not applied. |
| `NodeProof.HandlerApplies` | p2p/pubsub.go:36-116 | A new block is applied by the time its handler returns exactly when its proof of history checks, the own vote is still to be counted and completes the threshold. |
| `Dedup.DedupService.Add` | mempool/dedup_service.go:98-105 | The hashes join the cache. |
| `Dedup.DedupService.IsDuplicate` | mempool/dedup_service.go:85-96 | Found exactly when cached. |
| `Dedup.DedupService.LoadTxHashes` | mempool/dedup_service.go:44-83 | The cache gains exactly the dedup hashes of the stored blocks of the last 200 slots. |
| `Dedup.Loaded` | mempool/dedup_service.go:54-80 | Every stored block in the range is loaded whole. |
| `Dedup.LoadedOnly` | mempool/dedup_service.go:54-80 | Nothing else is loaded. |
| `Mempool.MempoolObject.constructor` | mempool/mempool.go:50-68 | A new pool is empty at slot 0. |
| `Mempool.MempoolObject.ValidateNonce` | mempool/mempool.go:169-184 | The first transaction outside the window decides. |
| `Mempool.MempoolObject.ValidateDuplicateTxs` | mempool/mempool.go:186-198 | Duplicate exactly when some dedup hash is cached. |
| `Mempool.MempoolObject.ValidateBalance` | mempool/mempool.go:133-167 | Balance minus pending total, in 256-bit arithmetic, must cover the amount; transfers to oneself pass. |
| `Mempool.MempoolObject.CheapValidate` | mempool/mempool.go:270-303 | The checks before the lock, in order. |
| `Mempool.MempoolObject.ValidateTransaction` | mempool/mempool.go:306-339 | The checks under the lock, in order. |
| `Mempool.MempoolObject.Add` | mempool/mempool.go:70-131 | A refused transaction changes nothing; an admitted one enters all four structures. |
| `Mempool.MempoolObject.Drop` | mempool/mempool.go:352-372 | One transaction leaves the maps and its sender's total, which is dropped at zero. |
| `Mempool.MempoolObject.Pull` | mempool/mempool.go:342-386 | The front of the order leaves the pool and enters the cache. |
| `Mempool.MempoolObject.SetSlot` | mempool/mempool.go:412-418 | The current slot never goes back. |
| `Mempool.MempoolObject.Cleanup` | mempool/mempool.go:432-468 | A block's transactions leave the pool, visited in some order, and the order loses exactly their hashes. |
| `Mempool.MempoolObject.VerifyBlockTransactions` | mempool/mempool.go:420-430 | All nonces are looked at before any duplicate. |
| `Mempool.BlockError` | mempool/mempool.go:420-430 | A block passes exactly when every nonce is in the window and no dedup hash is cached. |
| `MempoolRuns.AdmittedTx` | mempool/mempool.go:270-339 | Exactly which transactions are admitted. |
| `MempoolProof.RemovalExact` | mempool/mempool.go:360-368 | Removal keeps the totals exact precisely for transfers, for content without amount, and for senders without a total. |
| `MempoolProof.CreditedContent` | mempool/mempool.go:360-368 | An input that fails it. |
| `MempoolProof.AdmissionExact` | mempool/mempool.go:98-105 | Admission keeps the totals exact precisely for content and for transfers that do not take what the sender owes to 2^256. |
| `MempoolProof.CleanupOrderIrrelevant` | mempool/mempool.go:436-449 | On a consistent pool the order in which a block's hashes are visited does not matter. |
| `MempoolRuns.FreshConsistent` | mempool/mempool.go:50-68 | A new pool is consistent. |
| `MempoolRuns.QueueConsistent` | mempool/mempool.go:93-96 | In every run, whatever the amounts, the order lists each pending transaction once, and the dedup set is exactly their dedup hashes and no two share one. |
| `MempoolRuns.StepKeepsTotalled` | mempool/mempool.go:360-368 | Every operation keeps the totals exact, given that an admitted amount can be accounted for. |
| `MempoolRuns.PoolConsistent` | mempool/mempool.go:93-105 | In every run in which admitted content is free and sums of pending amounts stay below 2^256, each total is besides exactly the sum of the sender's pending transfers and there only when positive. |
| `MempoolRuns.PullSplits` | mempool/mempool.go:342-377 | A pull returns the front of the queue and leaves the rest. |
| `MempoolRuns.FirstInFirstOut` | mempool/mempool.go:342-377 | In every run without eviction, whatever the amounts, with each pull in one piece, pulled transactions and then the waiting ones are the admitted ones in order without those cleaned up, and no dedup hash is pulled twice. |
| `PullSplit.StepSettles` | mempool/mempool.go:374-377 | A step in a run of split pulls that readmits nothing is, once everything taken out is remembered, the step with the pull in one piece. |
| `PullSplit.SplitPulls` | mempool/mempool.go:342-377 | The same law with steps between a pull and its entry in the cache: no dedup hash is admitted twice exactly when nothing is admitted again in between, and then the law holds. |
| `PullSplit.Readmission` | mempool/mempool.go:374-377 | Any transaction that an empty pool admits is admitted a second time if it comes again in between. |
| `MempoolRuns.AdmissionSolvent` | mempool/mempool.go:133-167 | Admitting a transfer keeps the totals exact and covered precisely when it is not to oneself, or the sender could pay it on top of what it owes. |
| `MempoolRuns.UncoveredSelfTransfer` | mempool/mempool.go:133-167 | An input that fails it. |
| `MempoolRuns.PoolSolvent` | mempool/mempool.go:133-167 | While balances do not fall, no transfer to oneself comes in and user content carries no amount, every pending total is at most the balance, so no subtraction wraps, and the pool stays consistent without assuming anything about overflow. |
| `Replay.RefusedEverywhere` | mempool/mempool.go:420-430 | A transaction outside the window or in the cache is refused by the pool and with every block that contains it. |
| `Replay.JoinedRemembers` | cmd/node.go:248-252 | After joining, every stored transaction with a nonce up to 49 beyond its slot is too old or cached. |
| `Replay.ReplayRefused` | mempool/dedup_service.go:44-83 | And it is refused in every later run in which its cache entry lives until the slot passes its nonce by 150. |
| `Replay.SlackIsSharp` | mempool/dedup_service.go:49-52 | With any nonce more than 49 beyond its slot there is a store whose transaction passes again after joining. |
| `Replay.RefusalIsCertain` | mempool/dedup_service.go:49-52 | So a transaction stored at a slot is certain to be refused after joining exactly when its nonce is at most 49 beyond the slot; in slot 0 exactly when it is zero. |
| `Sync.SendBlocks` | p2p/block.go:299-359 | For whatever its rounds find, the loop sends in batches of 1 to 100 blocks exactly the rounds' stored blocks, and reports where it has come and whether it has ended by itself. |
| `Sync.SendRange` | p2p/block.go:326-355 | One round sends the stored blocks of its range in batches. |
| `SyncProof.SenderSends` | p2p/block.go:299-359 | While the latest slot does not go back and what lies up to it does not change, the blocks sent are the stored ones from the requested start to where the sender has come, once each, in slot order; a request that ends before it starts is served from just after its end. |
| `SyncProof.SenderFinishes` | p2p/block.go:299-359 | The loop ends after no more rounds than there are slots left plus one, however the latest slot grows below a bound, and has then come past the latest slot of a round. |
| `SyncProof.ConstantSender` | p2p/block.go:299-359 | For a fixed latest slot the loop ends and the blocks sent are the stored ones from the start to the latest slot, once each, in slot order. |
| `Sync.OrderingQueue.constructor` | p2p/block_ordering.go:129-135 | The queue starts empty at the expected slot. |
| `Sync.OrderingQueue.GetPrevHashForSlot` | p2p/block_ordering.go:144-166 | Zero for slot 1, else the end of the last taken block, else of the stored block before, else zero. |
| `Sync.OrderingQueue.AssembleEmptyBlock` | p2p/block_ordering.go:48-59 | A tick-only block from the previous hash. |
| `Sync.OrderingQueue.TakeConsecutive` | p2p/block_ordering.go:36-71 | The loop ends and is one pass over the queue. |
| `Sync.OrderingQueue.ProcessBlock` | p2p/block_ordering.go:100-127 | A trusted new block is stored with its verdict and finalised; any other changes nothing. |
| `Sync.OrderingQueue.AddBlockToOrderingQueue` | p2p/block_ordering.go:16-98 | A stored slot is skipped; otherwise the block is queued, a pass is made and what it takes is processed in order. |
| `Sync.OrderingQueue.ReceiveBatches` | p2p/block.go:141-173 | Every block of every batch arrives in turn. |
| `SyncProof.CollectPasses` | p2p/block_ordering.go:36-71 | A pass takes exactly the slots from the old to the new expected slot, each the waiting block or one made up by its leader, leaves the rest alone, and stops only after the newest known slot or at a slot neither waiting nor led. |
| `SyncProof.TakenSlots` | p2p/block_ordering.go:36-71 | The blocks it takes carry consecutive slots. |
| `SyncProof.MadeUpBlocksLink` | p2p/block_ordering.go:47-66 | A made-up block starts from the last entry hash of the slot before it, in the pass or the store, zero for slot 1, and the checker accepts it exactly when the clock settings are at most 100 or it has no entries. |
| `SyncSession.MadeUpRunIsFastForward` | validator/validator.go:130-147 | Consecutive slots that a pass makes up end exactly where the recorder's fast-forward over the same slots ends, as long as the hashes fit 64 bits. |
| `SyncSession.SeedAfterMadeUpRun` | validator/validator.go:116-147 | So a leader that gives up waiting after such slots, its newest stored slot being the one before them, starts from the end of the last made-up block. |
| `SyncProof.OrderIrrelevant` | p2p/block_ordering.go:21-71 | For one new block per slot and no led slot up to where the pass stops, every order of arrival takes the same blocks in the same order, leaves the same queue and ends in the same store. |
| `SyncProof.ArrivalsComeTo` | p2p/block_ordering.go:21-71 | They take the maximal contiguous run from the expected slot, capped at the newest known slot. |
| `SyncProof.LedSlotOrderMatters` | p2p/block_ordering.go:47-66 | For any new arrivals, one of them for a led slot in reach: if it comes first it is taken for its slot, if it comes last a made-up block is; the two orders agree there exactly when it is the made-up block. |
| `SyncProof.SyncDelivers` | p2p/block.go:299-359 | A receiver that leads none of the slots takes each sent block exactly once in order and then expects the slot after. |
| `SyncProof.ReplicaAccounts` | p2p/block_ordering.go:73-79 | The receiver's accounts become exactly what the sender's stored blocks of those slots make of them, transfer by transfer in slot order. |
| `SyncProof.SyncReplicates` | p2p/block_ordering.go:16-98 | A stream of consecutive slots brings the receiver to the slot after, with those slots stored and exactly those transfers applied. |
| `SyncSession.SessionReplicates` | p2p/block.go:299-359 | For any request, whatever the rounds of the sender find while its store grows and however the stream is cut into batches: the receiver comes to the slot the sender has come to, with those slots stored, and with the sender's accounts if those are its own earlier ones changed by the transfers of those slots. |
| `SyncSession.ConstantSession` | p2p/block.go:299-359 | With a sender whose latest slot stays the same the loop ends, and the receiver has replicated everything up to it. |

## Left out

- Libp2p, topics, streams, discovery, bootstrap, gRPC, JSON-RPC, CORS and the command line.
- LevelDB, RocksDB and Redis; slot locks and their clean-up. Reads and writes do not fail, except that a
  finalising batch may be refused (`writeOk` in `Node`).
- SHA-256, Ed25519, Groth16, base58 and JSON, which are black boxes; block hashes and their signatures.
- Logging, metrics, events, the transaction tracker, error texts, checkpoints, sync request tracking.
- Overflow of 64-bit slots, tick heights and counters, which are unbounded numbers here, except for the
  wrap of the slot before slot 0 in the recorder's lookup.
- Nil transactions. The absent amount of a user content is read as zero in the pool; the source would
  dereference it when its sender has a pending total.
- Data races. Each action of the model is atomic: draining and ticking (apart from `FlushMaySplit`),
  starting a leader slot, a pull together with adding to the cache (apart from `PullSplit`), a block's
  entries in the cache together with the clean-up of the pool, admission together with the size check
  that the source makes before taking the lock, storing a block together with the check that it is
  new, and a finalisation, which holds the ledger's lock. A sync is two actions, and a commit is its
  check, the taking of the apply lock with the look at the finalised marker, and the finalisation.
- Character encodings: strings are sequences of characters, and the memo limit counts those.
- The timing of a leader's wait for the slot before, which is an input; and forced resets of the clock.
- Publishing: a node's own block is always followed by its own vote, which the source casts only once the
  block has been published.
- The eviction policy of the cache, which may drop any entry at any time where a theorem does not say
  otherwise.
- The library sort of the schedule, which is an insertion sort here; adding entries to a schedule and
  listing leaders in a range.
- Listener nodes, which do not vote.
- Account and transaction history queries.
- Block sync with several peers at a time.
- LeaderProof.ProducedBlocksVerify: assumes at least two ticks per slot, a positive batch size and 2 to 100 hashes per tick, because the pipeline loses entries or mixes slots otherwise; DiscardsIffBeyondCap is the exact condition for the former, and OneTickBlocks is the theorem for one tick per slot.
- LeaderProof.PulledInOrder: assumes at least two ticks per slot; TickCloses says what a tick drops with one.
- MempoolRuns.FirstInFirstOut: has each pull in one piece; SplitPulls is the exact condition without that.
- MempoolRuns.PoolConsistent: assumes that admitted user content carries no amount and that sums of pending amounts stay below 2^256; RemovalExact and AdmissionExact are the exact conditions for one operation, and PoolSolvent does without the latter.
- SyncProof.OrderIrrelevant: assumes that the node leads no slot up to where the pass stops; LedSlotOrderMatters shows the difference a led slot makes.

# mirstat in Dafny

A model of the deterministic logic of a mirstat node and wallet, and proofs about it.

- **Mempool.** `OrderedIndex`, `PoolSpec` and `PoolOps` define the pool as a value: two maps, two
  priority indices, the coin-to-spender index and the byte counter, with what each operation does to
  them; `PoolLaws` says what that means for the transactions. `Mempool` is the object that is
  updated in place, each method proved against `PoolOps`.
- **Chain adoption.** `Chain` is consensus as far as adoption needs it (replay from genesis, work,
  timestamp window, fork choice), `Storage` the blocks on disk (fork search, work pre-check, rebuild),
  `NodeSpec` the node as a state machine over its events, `NodeLaws` what every run keeps,
  `NodeProgress` what each event brings about, and `FullNode` the object with its fields. `Template`
  assembles blocks.
- **CoinJoin.** `CoinJoin` is a mix session with its canonical proposal, `MixSpec` the node's view of
  one session and its runs, `Mix` the manager.
- **Command line.** `Calendar` (timestamps), `Metadata` (licence metadata in burns), `ArchivalWork`
  (Merkle root, proof generation and re-check), `RestoreSpec` and `Restore` (gap-limit scan).
- **Chat.** `ChatPow` is the byte format under the chat proof of work.
- `Ledger` holds the shared values, `Collections` facts about lists and sets.

Taken as given: BLAKE3 is collision free where a lemma says so (`CollisionFree`, `HashBinds`,
`PairBinds`, `GrindBinds`); `apply_batch` is a partial function that checks parent and target, adds
positive work, and raises the height by one; storage returns what was saved; signatures, scripts,
serialized sizes and commit work are arbitrary functions. `Consistency` gives an instance of these
assumptions whose chain has a next block on every tip, and on it a run that loses the stored chain. A
32-byte string is the number it spells, so byte order is numeric order. Truncations, saturations and clamps of the original are written out
(`FeeRate`, `SatAdd`, `SaturatingAdd`, `Le`, `Payload`).

Where the repository's text and its code differ, the model follows the code:

- `src/mempool.rs:232-237` lists an absolute-fee rule; the code compares rates only (391-399).
- `src/mempool.rs:462-464` says `prune_invalid` restores the caps after `re_add`; it does not (729-780).
  They hold again after the next accepted reveal (`PoolOps.AdmissionLaw`).
- `src/chat.rs:453-457` shows a fixed zero separator; the code writes the attachment count (478).
- `src/main.rs:1624-1625` says a restored wallet watches every derived address; an address leaves the
  watch list with its first coin (`src/wallet/mod.rs:378-384`, 411-425). When every fetch succeeds no
  coin is missed by it (`RestoreSpec.ServedIsHeld`).
- `src/wallet/coinjoin.rs:349-352` says no two inputs of a mix share an address; `register` checks
  coins only (`CoinJoin.OneAddressTwice`, `CoinJoin.JoinKeepsKeysIff`).

Properties that fail for some inputs, each with its exact condition:

- The stored chain replays to the tip. A sync session may outlive the chain it started on: a fork
  accepted below its base takes its anchor away (`NodeLaws.UndercutIff`), and finishing it then breaks
  the stored chain (`NodeLaws.ReorgIffAnchored`, `NodeLaws.UndercutBreaks`, `Consistency.ChainIsLost`).
- A coinbase totals reward plus fees. The u64 sum of its outputs may wrap (`Template.AcceptedTotals`,
  `Template.OverpaidCoinbase`); consensus adds with overflow checks (`src/core/state.rs:435`).
- A mix proposal keeps a session sound. Accepting one does not clear the signatures given to another
  (`MixSpec.SecondProposalIff`).
- A licence is recovered from its block. Another one of its chunk count prevents it
  (`Metadata.LicenceRecoveredIff`, `Metadata.TwoLicences`).
- A restore finds all coins. A block that is not served in the round that finds another coin of its
  address is not asked for it again (`RestoreSpec.HeldIffWhole`, `RestoreSpec.CoinIsLost`).
- A chat preimage binds its message. It does so for given lengths of sender and words
  (`ChatPow.PreimageBinds`, `ChatPow.LengthsMatter`).

## Model

| member | source | states |
|---|---|---|
| `PoolOps.EveryRunAgrees` | src/mempool.rs:128-148 | After every run of `add`, `re_add`, `drain`, `prune_on_new_block` and `prune_invalid` from the empty pool, over all transactions (a consolidation with inputs, since the original indexes the first), the fee index is exactly the (rate, id) pairs of the stored reveals, the coin index exactly the coin-to-spender map with disjoint inputs, the byte counter the exact sum of sizes, and every commit has exactly one work entry |
| `PoolOps.DoKeeps` | src/mempool.rs:201-780 | Each single operation keeps that agreement |
| `PoolSpec.WithAgreesIff` | src/mempool.rs:438-445 | Writing a reveal whose coins are free keeps the indices in agreement if and only if its id is not stored already |
| `PoolOps.SameIdConflicts` | src/mempool.rs:40-65 | Equal ids force an equal first input, so an entry stored under the id of a reveal with inputs is one of its conflicts |
| `PoolOps.PayingSpends` | src/mempool.rs:359-366 | A transaction without inputs has no fee and is refused at the fee floor |
| `PoolSpec.IndicesDetermined` | src/mempool.rs:128-148 | The indices and the counter are functions of the stored transactions: pools in agreement that store the same ones are equal |
| `PoolOps.OneEviction` | src/mempool.rs:407-431 | There is only one shortest eviction prefix, so the outcome of `add` is determined |
| `PoolOps.VictimsFreeRoom` | src/mempool.rs:434-436 | Evicting the conflicts and the prefix frees every coin and the id of the newcomer |
| `PoolOps.AdmissionLaw` | src/mempool.rs:359-446 | An accepted reveal: consistency is kept; the pool holds the newcomer and everything but conflicts and prefix; every victim had a strictly lower rate; the count and byte caps hold even if they did not before |
| `PoolLaws.AdmittedIff` | src/mempool.rs:302-446 | A reveal gets into the pool if and only if no known key use of another commitment clashes with its keys, it pays the minimum, every pending reveal it shares a coin with has a strictly lower rate, and it fits under both caps beside the other pending reveals that are not cheaper |
| `PoolLaws.RoomIff` | src/mempool.rs:407-431 | The walk up the fee index finds room exactly when the newcomer fits beside everything that is not cheaper |
| `PoolLaws.EvictionLaw` | src/mempool.rs:382-446 | What goes for it are the reveals it shares a coin with and, of the others, just the cheapest, no more than the caps ask for; commits and all other reveals stay as they are |
| `PoolLaws.RateIs` | src/mempool.rs:66-80 | Within 64 bits the stored rate is the greatest whole number of units per 1,024 bytes that the transaction pays beyond its outputs |
| `PoolOps.RateMeetsFloor` | src/mempool.rs:66-80 | Within 64 bits the stored rate reaches the minimum exactly when the admission check passes |
| `PoolOps.CommitLaw` | src/mempool.rs:266-300 | An accepted commit displaces at most the weakest one, which it beats; the commit pool never grows past the larger of its cap and its previous size |
| `PoolLaws.CommitIff` | src/mempool.rs:266-300 | A commit gets in if and only if it is new, carries the required work, and a full pool has one with less; the one with the least work goes then, the newcomer is listed under its own work, and all else stays as it is |
| `PoolOps.KilledInThreePasses` | src/mempool.rs:641-717 | The three passes over a new block together remove exactly the reveals with a spent coin, a burned key or an expired or unknown commitment |
| `PoolLaws.PruneOnBlockIff` | src/mempool.rs:634-718 | What a new block leaves: exactly the reveals without a spent coin and without a burned key whose commitment has a recorded height and is not overdue, and the commits that were not mined |
| `PoolLaws.PruneInvalidIff` | src/mempool.rs:729-780 | What `prune_invalid` leaves: exactly the reveals whose coins are all in the state and whose commitment is open, recorded and not overdue, and the commits that carry enough work |
| `PoolOps.PruneOnBlockKeeps` | src/mempool.rs:634-718 | They keep the pool consistent |
| `PoolOps.PruneInvalidKeeps` | src/mempool.rs:729-780 | `prune_invalid` keeps the pool consistent |
| `PoolOps.ReAddAllKeeps` | src/mempool.rs:465-503 | Restoring any list of transactions, without fee, work or capacity checks, keeps the pool consistent |
| `PoolOps.ReorgLaw` | src/mempool.rs:465-509 | After `re_add` and `prune_invalid`: nothing is pending that the new state does not allow (all coins present, commitment open, recorded and not overdue; for a commit enough work); everything that was pending and is allowed still is; what is new was abandoned; and of the abandoned transactions that are valid and share no coin or commitment with one that was pending or came before, exactly the commits and the reveals whose commitment has a recorded height are pending |
| `PoolLaws.ReAddLaw` | src/mempool.rs:465-509 | `re_add` alone changes the pool exactly when some transaction is valid and collides with none that is pending, and then it leaves nothing that is not allowed and takes nothing that is |
| `PoolOps.ValidIsLive` | src/mempool.rs:751-775 | A valid spend passes the fast checks exactly when a height is recorded for the commitment it opens |
| `PoolOps.DrainKeeps` | src/mempool.rs:519-549 | Draining keeps the pool consistent |
| `PoolOps.DrainSplits` | src/mempool.rs:511-578 | Draining takes the first min(max, len) entries off the priority snapshot and leaves exactly the rest in the same order |
| `PoolLaws.SnapshotLaw` | src/mempool.rs:565-578 | The snapshot lists every pending reveal once, none before one of a higher rate, and then the commits, none before one of more work |
| `Mempool.Mempool.RemoveSpend` | src/mempool.rs:201-210 | Removing one reveal is exact on all indices: nothing saturates and only its own coins and key go |
| `Mempool.Mempool.RemoveSpends` | src/mempool.rs:434-436 | Removes exactly the listed reveals |
| `Mempool.Mempool.InsertSpend` | src/mempool.rs:438-445 | Writes a reveal to every index |
| `Mempool.Mempool.FindConflicts` | src/mempool.rs:368-376 | Lists each pending spender of the newcomer's coins once, and no other |
| `Mempool.Mempool.OutbidConflicts` | src/mempool.rs:382-405 | Succeeds exactly when every conflict has a strictly lower rate, and then its counters are the true ones without the conflicts |
| `Mempool.Mempool.FindRoom` | src/mempool.rs:407-431 | Finds a plan exactly when evicting some outbid fee-ascending prefix makes room, and then the shortest |
| `Mempool.Mempool.AddSpend` | src/mempool.rs:302-446 | A reveal is admitted if and only if the address check, the fee floor, the outbidding of conflicts and the room search allow it; otherwise the pool is unchanged |
| `Mempool.Mempool.AddCommitment` | src/mempool.rs:266-300 | A commit is admitted if and only if it is new, carries the required work and beats the weakest of a full pool; otherwise the pool is unchanged |
| `Mempool.Mempool.Add` | src/mempool.rs:247-449 | `add` is the specified function of the pool before, and a refusal changes nothing |
| `Mempool.Mempool.RemoveCommits` | src/mempool.rs:649-653 | Removes exactly the listed commits and their work entries |
| `Mempool.Mempool.PruneInvalid` | src/mempool.rs:729-780 | Leaves exactly the reveals that pass the fast checks and the commits that still carry enough work |
| `Mempool.Mempool.RemoveSpenders` | src/mempool.rs:641-647 | Removes exactly the spenders of the spent coins |
| `Mempool.Mempool.PruneOnNewBlock` | src/mempool.rs:634-718 | Leaves exactly the reveals the block does not kill and the commits it did not mine |
| `Mempool.Mempool.ReAdd` | src/mempool.rs:465-509 | Restores what can be restored, one after the other, and prunes if anything came back |
| `Mempool.Mempool.Snapshot` | src/mempool.rs:565-578 | `transactions()`: reveals by descending rate, then commits by descending work |
| `Mempool.Mempool.DrainSpends` | src/mempool.rs:522-536 | Pops the best reveals in order; the entry it unwraps is always there |
| `Mempool.Mempool.DrainCommits` | src/mempool.rs:538-547 | Pops the best commits in order |
| `Mempool.Mempool.Drain` | src/mempool.rs:519-549 | Returns exactly the first min(max, len) entries of the snapshot taken before and leaves the rest |
| `Mempool.Select` | src/mempool.rs:751-775 | Collects exactly the keys that meet a condition, each once |
| `Chain.ReplayFacts` | src/core/state.rs:204-266 | A replayed state has the height, accumulated work, tip hash and linked history of its chain |
| `Chain.SameTip` | src/core/state.rs:253-265 | Two valid chains of one length with the same tip hash have the same state, hashes and timestamps all the way down |
| `Chain.SwapPrefix` | src/node.rs:6743-6833 | What later blocks do depends only on the state and timestamps below them |
| `Chain.SlideWindow` | src/node.rs:6830-6833 | Push and pop keep the timestamp window the last `DIFFICULTY_LOOKBACK` block times |
| `Chain.ChooseBestIsBest` | src/core/state.rs:594-602 | The fork choice returns one of its candidates and none is better than it |
| `Chain.WorkIs` | src/core/state.rs:151-162 | The work of a target is the number of times it goes into the hash range, up to 128 bits |
| `Chain.CommitAddsWork` | src/core/state.rs:512-523 | Each commit in a block adds its weight once the bonus is active, up to 128 bits, and no other transaction does |
| `Chain.ExtensionIsBetter` | src/node.rs:5803-5807 | A block applied to the tip always wins the fork choice against the tip |
| `Storage.DiskWindow` | src/node.rs:6727-6733 | Timestamps loaded from disk are the window of the stored chain |
| `Storage.ExtendIsReplay` | src/node.rs:5150-5312 | Applying blocks with a sliding window equals replaying the whole chain from genesis |
| `Storage.ApplyAll` | src/node.rs:5150-5312 | The candidate loop yields that state, or nothing as soon as a block fails |
| `Storage.LoadTimes` | src/node.rs:6727-6733 | Loads the timestamps of the stored blocks in a range |
| `Storage.ReplayBlocks` | src/node.rs:6716-6841 | From the replay of a stored prefix, yields the replay of the longer prefix, or nothing if a block is missing or fails |
| `Storage.SnapshotIsOurs` | src/node.rs:6850-6876 | A snapshot of any valid chain whose header hash matches our stored predecessor block is our own state at that height |
| `Storage.RebuildState` | src/node.rs:6844-6895 | Rebuilding from the cached state, from the best matching snapshot or from genesis, whatever snapshots there are, gives the replay from genesis of a stored chain that replays; and nothing for one that does not, short of a snapshot above the height known to replay |
| `Storage.ForkPointIs` | src/node.rs:5067-5090 | Below the fork point all hashes agree; at it they differ or no block is stored; without one the whole range agrees |
| `Storage.FindForkPoint` | src/node.rs:5067-5090 | Finds it |
| `Storage.TotalWork` | src/node.rs:5123-5132 | Sums a range's work, commit bonus included, saturating at 128 bits |
| `Storage.PreCheckRefines` | src/node.rs:5108-5140 | For two valid chains over a common base with 128-bit depths, the saturated sums compare in favour of the alternative if and only if its replayed depth is greater |
| `Storage.PreCheckSaturates` | src/node.rs:5108-5140 | Over unbounded depths, if and only if moreover our own sum does not saturate |
| `NodeLaws.AdoptKeeps` | src/node.rs:5814-5842 | Moving the tip by a valid block keeps the node's invariant |
| `NodeLaws.TakeKeeps` | src/node.rs:5814-5853 | So does the pool pruning that follows |
| `NodeLaws.ApplyOrphansKeeps` | src/node.rs:6160-6238 | Applying queued orphans keeps it, and ends because each pass removes a key |
| `NodeProgress.OrphansLaw` | src/node.rs:6160-6238 | Applying orphans brings blocks from the queue, each under its parent, one after the other on the tip; exactly the lists under the tips on the way leave the queue; it stops only where no queued child applies; and the pool keeps exactly what all of these blocks spare |
| `NodeProgress.BlockPoolIff` | src/node.rs:5843-5853 | After a block exactly the reveals are pending that share no coin and no one-time key with a transaction of the block and whose commitment is recorded and not overdue, and the commits that the block did not mine |
| `NodeProgress.ChildLaw` | src/node.rs:5783-5902 | A new block that applies to the tip is stored and adopted, the pool keeps what it spares, a snapshot is saved at each multiple of the interval, and the orphans follow |
| `NodeProgress.StrangerLaw` | src/node.rs:5702-5780 | A new and plausible block with another parent is queued; any other block that does not apply changes nothing |
| `NodeProgress.FirstValidAt` | src/node.rs:6168-6221 | Of the children queued under the tip the first that applies is taken |
| `NodeLaws.QueueKeeps` | src/node.rs:5750-5780 | Queuing an orphan keeps the order list a duplicate-free list of the map's keys, at most 7 of them, with 1 to 4 distinct blocks under each, all naming that parent |
| `NodeProgress.QueueLaw` | src/node.rs:5750-5780 | A block whose hash is queued under its parent, or whose parent has four, changes nothing; any other is listed last under its parent; if its parent is the eighth the four queued first leave, and nothing else does |
| `NodeLaws.LinearExtensionKeeps` | src/node.rs:5970-6106 | A linear extension keeps the invariant |
| `NodeLaws.EvaluateGrafts` | src/node.rs:5093-5327 | An accepted alternative is the replay of the stored blocks below the fork followed by its own, and is better than the tip |
| `NodeProgress.EvaluateIff` | src/node.rs:5093-5327 | Evaluation accepts an alternative from any height, genesis and the tip included, if and only if the blocks stored below it followed by its own replay to a greater depth than the tip's; the pre-check stops none of these |
| `NodeProgress.ForkLaw` | src/node.rs:5938-5967 | A received range of which no block applies to the tip and which first differs from our blocks at some height is adopted if and only if our blocks below and its own from there on replay to a greater depth; the new tip is that state, on the stored chain; else nothing changes |
| `NodeProgress.KnownRange` | src/node.rs:5067-5090 | A range that agrees with our blocks throughout changes nothing |
| `NodeProgress.ExtensionLaw` | src/node.rs:5911-5935 | A received range is tried as an extension from its first block that applies to the tip |
| `NodeProgress.LinearLaw` | src/node.rs:5970-6106 | Its blocks are adopted as long as they apply, one after the other; the pool keeps exactly what the state then reached allows; and the orphans follow |
| `NodeProgress.ExtendAllLaw` | src/node.rs:5982-6080 | The loop applies as many blocks as apply one after the other: each is stored from the old height on, each state was the tip, and what is stored elsewhere is untouched |
| `NodeProgress.ExtendAllWhole` | src/node.rs:5982-6080 | A range that applies throughout is applied throughout |
| `NodeProgress.ExtendAllSaves` | src/node.rs:5982-6080 | A snapshot is saved of each state on the way at a multiple of the interval |
| `NodeLaws.ReorgKeeps` | src/node.rs:5330-5448 | A reorg to such an alternative keeps the invariant and moves the tip to it |
| `NodeProgress.ReorgReturns` | src/node.rs:5359-5442 | Of our own stored blocks from the fork to the tip, a transaction that is valid on the new chain and collides with none pending and none of these blocks before it is pending afterwards exactly if it is a commit or opens a commitment with a recorded height; what was pending stays exactly if the new chain allows it; and nothing else is pending |
| `NodeProgress.AbandonedSplits` | src/node.rs:5366-5371 | The transactions collected are those of the stored blocks, block after block |
| `NodeProgress.AbandonedHas` | src/node.rs:5366-5371 | A transaction is among them exactly if a stored block from the fork to the tip holds it |
| `NodeProgress.ReorgSaves` | src/node.rs:5377-5447 | Of the snapshots exactly those below the fork stay, and one of the new tip is added at a multiple of the interval |
| `NodeLaws.AnchoredReplay` | src/node.rs:1874-1884 | A sync session whose base ends in our stored block hash replays on our own blocks as on its own |
| `NodeLaws.ReorgIffAnchored` | src/node.rs:5338-5437 | Whatever is stored: writing a session's blocks over it leaves a chain that replays to the session's state if and only if the stored blocks below replay and end in the session's base |
| `NodeLaws.FlushKeeps` | src/node.rs:1874-1884 | The mid-sync checkpoint keeps the invariant, and what is flushed is the tip afterwards |
| `NodeLaws.FlushAnchors` | src/node.rs:1874-1884 | After a checkpoint the session is anchored where its flushed blocks now are |
| `NodeLaws.ExtensionAnchors` | src/node.rs:5970-6238 | Adopted blocks, linear extensions and orphans leave an open session anchored |
| `NodeLaws.ReorgAnchors` | src/node.rs:5330-5448 | So does a reorg at or above the session's base |
| `NodeLaws.UndercutIff` | src/node.rs:5938-5947 | A range of blocks leaves an open session anchored if and only if it is not accepted as a fork below the session's base |
| `NodeLaws.UndercutBreaks` | src/node.rs:1905-1917 | After such a fork the session's last chunk, if it beats the tip, leaves a stored chain that does not replay to the tip |
| `Consistency.ChainIsLost` | src/node.rs:5938-5947 | A run that does this: a block, a session on it, a heavier branch from below it, the session's last chunk |
| `NodeLaws.SyncChunkKeeps` | src/node.rs:1810-1930 | A chunk of an anchored session, its checkpoint and the final adoption keep the invariant |
| `NodeLaws.SyncBeginKeeps` | src/node.rs:1669-1806 | So does starting a session, with the snapshot it saves |
| `NodeProgress.SyncBeginLaw` | src/node.rs:1756-1795 | A session starts with our own chain below the fork and the state it replays to, and that state is saved |
| `NodeProgress.ChunkLaw` | src/node.rs:1810-1930 | An empty chunk or one that does not apply ends the session; any other is added, and a history of 500 blocks or more that is deeper than the tip is adopted at once; the last one ends the session, and its state is adopted exactly if it beats the tip |
| `NodeProgress.SyncCompletes` | src/node.rs:1810-1930 | However a chain is cut into chunks, delivering them ends the session; if the whole replays to a state that beats the tip that state is adopted; and the tip is afterwards no worse than it |
| `NodeLaws.HandleKeeps` | src/node.rs:4795-6238 | Every event keeps the invariant if an open session is anchored |
| `NodeLaws.HandleAnchors` | src/node.rs:4795-6238 | Every event leaves an open session anchored, unless it is a fork below the session's base |
| `NodeLaws.EveryRunIsSound` | src/node.rs:4795-6238 | At every point of every run in which no fork is accepted below an open session's base, the stored blocks below the tip are linked and replay to the tip, every cached state and snapshot is the replay of its prefix, the timestamp window is the last `DIFFICULTY_LOOKBACK` times, orphan queue and pool are in order, and an open session hangs on the stored chain |
| `NodeLaws.NoTipTwice` | src/node.rs:5314-5326 | Over every run whatsoever adopted tips strictly improve, so no abandoned tip is ever adopted again, through checkpoints of sessions that lost their chain either |
| `NodeLaws.HandleClimbs` | src/node.rs:4795-6238 | Every event adopts only tips better than the last |
| `NodeLaws.RunExtendsTips` | src/node.rs:5330-6238 | The log of adopted tips only grows |
| `NodeLaws.FreshInv` | src/node.rs:5803-5835 | A node that has applied the genesis block satisfies all that the laws of runs start from |
| `NodeLaws.TransactKeeps` | src/node.rs:4795-4920 | Offering a validated transaction to the mempool keeps the invariant |
| `NodeProgress.TransactIff` | src/node.rs:4795-4920 | An arriving transaction changes nothing but the pool, and that if and only if it is not refused, is valid on the tip, and the pool admits it |
| `FullNode.FullNode.constructor` | src/node.rs:5803-5835 | A node on the genesis block, with empty pool, queue and session |
| `FullNode.FullNode.HandleNewTransaction` | src/node.rs:4795-4920 | A transaction that validates against the tip, and is not refused before, is offered to the pool |
| `FullNode.FullNode.CacheCurrentState` | src/node.rs:5495-5504 | Replaces an entry at the tip's height, appends otherwise, and drops the oldest when over size |
| `NodeProgress.CachedLaw` | src/node.rs:5495-5504 | A new tip is cached last; of the states below it only the oldest may leave, and only to keep the cache within its size |
| `NodeProgress.TrimmedIff` | src/node.rs:5507-5511 | A reorg leaves exactly the cached states below the fork |
| `FullNode.FullNode.TrimCacheAbove` | src/node.rs:5507-5511 | Removes exactly the cached states at or above the fork |
| `FullNode.FullNode.MoveTip` | src/node.rs:5814-5842 | The tip moves by one block as specified |
| `FullNode.FullNode.TakeBlock` | src/node.rs:5814-5853 | And the pool is pruned by the block |
| `FullNode.FullNode.TryApplyOrphans` | src/node.rs:6160-6238 | Applies queued children of the tip until none applies, on any node with a sound pool |
| `FullNode.FullNode.QueueOrphan` | src/node.rs:5750-5780 | Queues an orphan as specified, evicting the oldest half of a full queue |
| `FullNode.FullNode.EvictOldest` | src/node.rs:5774-5779 | Removes the oldest entries from list and map |
| `FullNode.FullNode.HandleNewBatch` | src/node.rs:5702-5902 | Ignores a known block, queues an orphan, applies a child of the tip |
| `FullNode.FullNode.ProcessLinearExtension` | src/node.rs:5970-6106 | Applies blocks up to the first that does not fit |
| `FullNode.FullNode.EvaluateAlternative` | src/node.rs:5093-5327 | Accepts a fork exactly as specified, from the tip, genesis, or a rebuilt state once the work pre-check passes |
| `FullNode.FullNode.ReorgTimes` | src/node.rs:5390-5405 | The window after a reorg is that of the chain then on disk |
| `FullNode.FullNode.WriteBlocks` | src/node.rs:5426-5428 | Stores the new blocks from the fork on |
| `FullNode.FullNode.PerformReorg` | src/node.rs:5330-5448 | Performs a reorg as specified for any history; a valid node stays valid if the history grafts onto its stored chain |
| `FullNode.FullNode.RestorePool` | src/node.rs:5440-5442 | Restores abandoned transactions and prunes |
| `FullNode.FullNode.FindExtension` | src/node.rs:5911-5935 | Finds the first block of a range that extends the tip and applies |
| `NodeProgress.FirstExtensionIs` | src/node.rs:5911-5935 | The index found is that of the first block that applies to the tip, if any does |
| `FullNode.FullNode.HandleBatchesResponse` | src/node.rs:5908-5967 | Extends the tip if any block does, else evaluates the range as a fork |
| `FullNode.FullNode.BeginSync` | src/node.rs:1756-1795 | Starts a session from the rebuilt state at the fork and saves that state as a snapshot |
| `FullNode.FullNode.AbortSync` | src/node.rs:4052-4058 | Drops the session and changes nothing else |
| `FullNode.FullNode.SyncChunkArrived` | src/node.rs:1810-1930 | Applies a chunk, checkpoints, and finishes after the last one, whether or not the session is anchored; if it is, the node stays valid and the session anchored |
| `FullNode.FullNode.Checkpoint` | src/node.rs:1874-1884 | Adopts a history of 500 blocks or more that is deeper than the tip, on any node with a sound pool |
| `FullNode.FullNode.FinishSync` | src/node.rs:1905-1930 | Adopts the candidate if and only if it is better than the tip, on any node with a sound pool |
| `FullNode.FindValid` | src/node.rs:6168-6221 | Finds the first queued block that applies |
| `FullNode.CollectAbandoned` | src/node.rs:5366-5371 | Collects the transactions of the stored blocks from the fork to the tip |
| `FullNode.BestCached` | src/node.rs:5143-5146 | Finds the highest cached state at or below the fork |
| `Template.CommitsLaw` | src/node.rs:818-827 | Chosen commits apply in order, fit the byte limit and use no input, output or key |
| `Template.SpendsLaw` | src/node.rs:832-913 | Adding reveals keeps the byte, input and output limits, disjoint one-time keys and at most one consolidation per address, with commits in front |
| `Template.SpendsAreGreedy` | src/node.rs:832-913 | What was chosen from a prefix of the offer stays in place, and the next offer follows it if and only if it fits beside it |
| `Template.CommitsAreGreedy` | src/node.rs:818-827 | The same for commits |
| `Template.SpendFitsIff` | src/node.rs:832-913 | An offered reveal fits exactly when the block with it keeps all limits of a block |
| `Template.CommitFitsIff` | src/node.rs:818-827 | An offered commit fits exactly when the block with it does |
| `Template.OfferLaw` | src/node.rs:804-832 | Every transaction of the pool is offered in pool order behind the bounties, commits apart from the rest, while its place is within the count limit |
| `Template.OnlyOffered` | src/node.rs:804-832 | The bounties lead both offers, and beyond them nothing but the pool is offered |
| `Template.SplitPool` | src/node.rs:811-816 | The commits offered are exactly those of the pool, the other offers exactly its other transactions |
| `Template.ChooseCommits` | src/node.rs:818-827 | The commit loop makes the greedy choice, with its candidate state and fees |
| `Template.ChooseSpends` | src/node.rs:829-913 | So does the reveal loop, with its running counters |
| `Template.GatherKeys` | src/node.rs:838-885 | Collects a transaction's one-time keys, or reports a conflict exactly when one is taken |
| `Template.GatherZipped` | src/node.rs:845-859 | The same for the zipped inputs and witnesses of a reveal |
| `Template.TallyStep` | src/node.rs:888-912 | A transaction that passes the counters' checks is one that fits, and counting it keeps the counters exact |
| `Template.BuildPrefix` | src/node.rs:774-926 | The template is the greedy choice, bounties first; its state is the fold of its transactions, its fees their u64 sum, and it meets every limit of a block |
| `Template.CheckCoinbase` | src/node.rs:946-973 | A coinbase is accepted if and only if every output is a well-formed power of two and their u64 sum is the u64 sum of reward and template fees |
| `Template.AcceptedTotals` | src/node.rs:948-973 | With reward plus fees in 64 bits, an accepted coinbase totals them if and only if its sum stays in 64 bits |
| `Template.WrappedCoinbase` | src/node.rs:951-967 | Every accepted coinbase is still accepted with two outputs of 2^63 more, which claim 2^64 more |
| `Template.OverpaidCoinbase` | src/node.rs:951-967 | For a reward of 1 and no fees, outputs of 1, 2^63 and 2^63 are accepted |
| `CoinJoin.NewIsUniform` | src/wallet/coinjoin.rs:170-184 | A session opens exactly for power-of-two denominations, with the participant minimum clamped |
| `CoinJoin.SessionKeepsUniform` | src/wallet/coinjoin.rs:217-386 | Registrations keep one denomination, distinct coins and no burns |
| `CoinJoin.JoinAllIff` | src/wallet/coinjoin.rs:217-245 | A list of contributions is registered in full if and only if all are of the denomination, no coin comes twice, none is a burn and they are not too many |
| `CoinJoin.DonateKeepsKeys` | src/wallet/coinjoin.rs:358-386 | A donor is accepted only at an address no mixer uses |
| `CoinJoin.DonateIff` | src/wallet/coinjoin.rs:358-386 | A donor is accepted if and only if there is none yet, no mixer sits at its address, and it pays the minimum for a mix of the present size |
| `CoinJoin.ProposeIff` | src/wallet/coinjoin.rs:398-446 | There is a proposal if and only if there are enough participants and a donor that pays for all of them |
| `CoinJoin.RecommendedIsLeast` | src/wallet/coinjoin.rs:113-132 | The recommended fee is the least that meets the mempool's floor at the estimated size |
| `CoinJoin.JoinKeepsKeysIff` | src/wallet/coinjoin.rs:217-245 | A registration keeps one address per input if and only if its address is new to the session, the donor's included: `register` compares coins only |
| `CoinJoin.OneAddressTwice` | src/wallet/coinjoin.rs:217-245 | Two coins of one address are both accepted, against the invariant stated at lines 349-352 |
| `CoinJoin.ProposalHolds` | src/wallet/coinjoin.rs:398-446 | The proposal holds every registered input and output once, donor last, the rest in coin order, under the commitment of just those |
| `CoinJoin.ProposalConserves` | src/wallet/coinjoin.rs:398-446 | Inputs pay exactly the outputs and the donor's whole value, which is at least the recommended fee |
| `CoinJoin.MixPaysMinimum` | src/wallet/coinjoin.rs:113-132 | A mix reveal no larger than the size estimate passes the mempool's fee floor |
| `CoinJoin.ProposalIgnoresOrder` | src/wallet/coinjoin.rs:392-397 | Any order of the same registrations gives the same proposal |
| `MixSpec.EveryRunIsSound` | src/mix.rs:194-406 | In every run in which a proposal arrives only before any signature, signatures have indices of the current proposal and were accepted for it, participants match registrations, and every locally registered output is in the proposal |
| `MixSpec.StepKeeps` | src/mix.rs:125-406 | Each single event keeps that |
| `MixSpec.RegisterIff` | src/mix.rs:194-235 | A contribution is registered if and only if the session is collecting and stays uniform with it; its registrant becomes a participant, and a local output is remembered |
| `MixSpec.SetFeeIff` | src/mix.rs:238-260 | A donor is recorded if and only if the session is collecting and the donor passes the fee and address checks |
| `MixSpec.FinalizeIff` | src/mix.rs:264-277 | A session starts signing if and only if it is collecting, has enough participants, and a donor that pays for all of them |
| `MixSpec.SignIff` | src/mix.rs:280-331 | A signature is recorded, over an earlier one if there is one, if and only if the session is signing a proposal that has the index and accepts it |
| `MixSpec.RemoteIff` | src/mix.rs:367-406 | A proposal is accepted if and only if its commitment is that of its coins, outputs and salt and it pays every local output |
| `MixSpec.DisconnectIff` | src/mix.rs:125-138 | A disconnect fails a session if and only if it is unfinished and the peer coordinates it, registered in it or donates to it |
| `MixSpec.RegistrationCloses` | src/mix.rs:217-219 | Once there is a proposal no event changes the registrations |
| `MixSpec.RegisteredAreProposed` | src/mix.rs:264-277 | Every registered output is in the session's own proposal |
| `MixSpec.SecondProposalIff` | src/mix.rs:367-406 | Every accepted proposal keeps a session sound if and only if nothing was signed yet: accepting one does not clear the signatures given to another |
| `MixSpec.Pigeonhole` | src/mix.rs:345-353 | With all indices in range there are as many signatures as inputs exactly when none is missing |
| `MixSpec.CollectedIs` | src/mix.rs:349-353 | The collected list has the signatures in index order and fails exactly when one is missing |
| `MixSpec.BuildLaw` | src/mix.rs:334-357 | Building waits exactly while a signature is outstanding, never meets a missing proposal or signature, and hands the signatures over in input order |
| `MixSpec.FinalizeIsOwn` | src/mix.rs:264-277 | Finalizing records the session's own proposal and starts signing |
| `MixSpec.OwnStays` | src/mix.rs:264-357 | It stays recorded, with the registrations it came from, through every run without another proposal |
| `MixSpec.CoordinatorReveal` | src/mix.rs:334-357 | What the coordinator submits is the proposal everyone signed, each signature accepted for the input it stands beside, every local output paid, value conserved less the donor's fee |
| `MixSpec.SignedThrough` | src/mix.rs:280-357 | A signing session in which accepted signatures arrive, in any order and any number of times, yields its transaction if and only if every input got one |
| `MixSpec.OnlyGriefersAreBanned` | src/mix.rs:470-496 | A cleanup bans a peer for a session exactly when it stalls in signing and the peer registered an input nobody signed |
| `MixSpec.RegistrantIff` | src/mix.rs:476-490 | A peer answers for a coin exactly if it registered it, or donated it while no other peer registered it |
| `MixSpec.RetainedIff` | src/mix.rs:498-506 | A cleanup keeps a session if and only if it was signing for more than 60 seconds, or was complete or failed for less than 30, or was in another phase and created less than 300 seconds ago |
| `Mix.MixManager.constructor` | src/mix.rs:117-122 | No sessions and no bans |
| `Mix.MixManager.CreateSession` | src/mix.rs:141-161 | Opens a session exactly when there is room and the denomination is a power of two |
| `Mix.MixManager.CreateJoiningSession` | src/mix.rs:164-191 | The same for a joiner, and only under a new id |
| `Mix.MixManager.Register` | src/mix.rs:194-235 | An unbanned registrant joins a collecting session, or nothing changes |
| `Mix.MixManager.SetFeeInput` | src/mix.rs:238-260 | An unbanned donor is recorded in a collecting session, or nothing changes |
| `Mix.MixManager.Finalize` | src/mix.rs:264-277 | A ready session moves to signing with its own proposal |
| `Mix.MixManager.AddSignature` | src/mix.rs:280-331 | Records a signature exactly when the input accepts it; bans the sender of one that it does not |
| `Mix.MixManager.TryBuildTransaction` | src/mix.rs:334-357 | Builds without changing anything, waiting exactly while a signature is outstanding |
| `Mix.MixManager.BuildFor` | src/mix.rs:334-357 | The same on one session |
| `Mix.MixManager.ApplyRemoteProposal` | src/mix.rs:367-406 | Accepts a proposal exactly when its commitment matches and it pays every local output |
| `Mix.MixManager.HandlePeerDisconnect` | src/mix.rs:125-138 | Fails exactly the unfinished sessions that involve the peer |
| `Mix.MixManager.DisconnectOne` | src/mix.rs:126-137 | The same on one session |
| `Mix.MixManager.SilentPeers` | src/mix.rs:471-493 | Collects the registrants of unsigned inputs |
| `Mix.MixManager.CleanOne` | src/mix.rs:468-506 | Fails a stalled session, decides whether it stays, and names the peers to ban |
| `Mix.MixManager.Cleanup` | src/mix.rs:459-511 | Fails stalled sessions, drops overdue ones, and bans exactly the registrants of unsigned inputs of stalled ones |
| `Calendar.FormatUtc` | src/main.rs:3387-3407 | For every u64 timestamp all subtractions stay in the naturals and the result is a valid Gregorian date and time of 1970 or later |
| `Calendar.FormatRoundTrip` | src/main.rs:3387-3407 | Seconds Since the Epoch (section 4.16 of the POSIX.1-2017 Base Definitions) of the result is the timestamp |
| `Calendar.EpochInjective` | src/main.rs:3387-3407 | That formula gives distinct values to distinct valid times |
| `Calendar.FormatIsInverse` | src/main.rs:3387-3407 | So a timestamp formats to a valid time if and only if the formula maps that time to it |
| `Calendar.EraDay` | src/main.rs:3393-3396 | The year of the era lies in 0..399 and the day of its year in 0..365, day 365 only in a leap year |
| `Calendar.MonthDay` | src/main.rs:3397-3400 | Month and day agree with the month lengths |
| `Metadata.Split` | src/main.rs:3980-3992 | The chunking loop produces the headed pieces of 78 bytes |
| `Metadata.RecoveredIff` | src/main.rs:4643-4695 | In any arrival order, beside any other burns, the metadata's total yields something if and only if there are 1 to 255 chunks and no other burn reads as a chunk of that total, and then it yields the metadata |
| `Metadata.IssuedRecovery` | src/main.rs:3971-4011 | As far as the format goes: beside the issuance burn, recovery succeeds if and only if there are 1 to 255 chunks and not exactly 114, that burn's own total |
| `Metadata.LicenceCount` | src/wallet/mod.rs:44-59 | The JSON of a licence has at most 549 bytes, so at most 8 chunks |
| `Metadata.LicenceRecovered` | src/main.rs:3971-4011 | Every licence is recovered from its issuing transaction, in any order of its burns |
| `Metadata.LicenceRecoveredIff` | src/main.rs:4643-4695 | In a block, beside any other burns, a licence is recovered if and only if none of them reads as a chunk of its total |
| `Metadata.TwoLicences` | src/main.rs:4681-4689 | Of two licences of one chunk count in a block neither is recovered |
| `Metadata.TooManyWrap` | src/main.rs:3983-3987 | As far as the format goes: beyond 255 chunks more burns carry the wrapped total than it says |
| `Metadata.CollectChunks` | src/main.rs:4643-4672 | Reads exactly the burns with a plausible header, in order |
| `Metadata.GroupByTotal` | src/main.rs:4681-4686 | Groups chunks by total, in arrival order |
| `Metadata.Recover` | src/main.rs:4678-4695 | Yields the joined bytes of exactly the complete groups |
| `ArchivalWork.BuildMerkle` | src/main.rs:4404-4432 | The level-by-level loop computes the root of the tree defined from the top, in which a missing right half repeats the left one |
| `ArchivalWork.HashLevel` | src/main.rs:4415-4428 | The inner loop hashes one level |
| `ArchivalWork.LevelLowersTree` | src/main.rs:4414-4430 | Hashing one level takes one level off the tree |
| `ArchivalWork.SameRootIff` | src/main.rs:4404-4432 | Lists of one depth share a root if and only if repetition fills them up to the same leaves |
| `ArchivalWork.RootBinds` | src/main.rs:4404-4432 | Lists of one length with the same root are equal |
| `ArchivalWork.OddListRepeats` | src/main.rs:4421-4423 | An odd list of three or more has the root of the list with its last leaf repeated, so the length matters |
| `ArchivalWork.Generate` | src/main.rs:4444-4513 | Samples exactly the heights of range and stride; the bundle has one proof per payload under their root, and passes the re-check if and only if every sampled block was really fetched; else names a block no nonce up to the bound solves |
| `ArchivalWork.Grind` | src/main.rs:4486-4507 | The least nonce that solves a block, or none up to the bound |
| `ArchivalWork.Check` | src/main.rs:3855-3890 | Accepts a bundle if and only if it holds one proof of the stated difficulty per fetched payload under the stated root |
| `ArchivalWork.BundleBinds` | src/main.rs:3855-3890 | Accepted bundles of one size and root are for the same issuer, nonces and payloads |
| `ArchivalWork.TopOfRangeRepeats` | src/main.rs:4509-4510 | The sampling step does not advance exactly at the top of the 64-bit range |
| `Restore.Wallet.Rescan` | src/main.rs:1711-1753 | Whatever each round is served, the restore loop ends, after the first round that makes the last four batches fruitless, with exactly the coins its rounds lead to |
| `Restore.Wallet.ScanFloor` | src/main.rs:1718-1731 | The floor scan, over 1024 receiving and 4 MSS addresses, is the first round |
| `Restore.Wallet.ExtendByBatch` | src/main.rs:1737-1745 | Each further round derives a batch and scans, and reports coins exactly when it found any |
| `Restore.Wallet.ScanRound` | src/main.rs:1739-1742 | A scan of the watched addresses adds exactly what this round's blocks pay them |
| `Restore.Wallet.TargetedScan` | src/main.rs:1084-1148 | Adds exactly the coins the served blocks pay to the addresses, and counts them |
| `Restore.Wallet.ScanBlock` | src/main.rs:1107-1143 | The same for one block |
| `Restore.Wallet.ImportScanned` | src/wallet/mod.rs:388-479 | Imports a new coin at a receiving key, an MSS address or beside a sibling; a receiving key leaves with its first coin |
| `Restore.Wallet.GenerateKeys` | src/wallet/mod.rs:1718-1735 | Derives the next addresses in order |
| `Restore.Wallet.KeysAreUnused` | src/wallet/mod.rs:377-384 | The receiving addresses still watched are exactly the derived ones at which no round found a coin |
| `Restore.ExtendOnce` | src/main.rs:1743-1753 | The gap counter stops the loop exactly when four rounds in a row found nothing |
| `RestoreSpec.HeldIffWhole` | src/main.rs:1095-1104 | A restore holds all coins of the derived addresses if and only if at each receiving address the first round that found a coin was served all blocks that pay it, and at each MSS address the rounds together were |
| `RestoreSpec.HeldAtReceiving` | src/wallet/mod.rs:411-425 | At a receiving address exactly that is held which the first successful round found: then it is no longer watched |
| `RestoreSpec.HeldAtMss` | src/wallet/mod.rs:428-442 | At an MSS address everything any round found is held |
| `RestoreSpec.MissedStaysLost` | src/main.rs:1099-1101 | No later round adds to what the first successful one found at a receiving address |
| `RestoreSpec.CoinIsLost` | src/main.rs:1099-1101 | Two blocks pay one address and the second is not served in the first round only: its coin is never found |
| `RestoreSpec.FoundBelowGap` | src/main.rs:1743-1752 | Whatever was served, an index a coin was found at lies more than `GAP_LIMIT` below the last one |
| `RestoreSpec.ServedIsHeld` | src/main.rs:1737-1742 | If no fetch fails, every round holds all coins of the addresses derived so far, though it scans only the watched ones |
| `RestoreSpec.StopsAtFirstGap` | src/main.rs:1733-1753 | If no fetch fails, the loop stops at the first batch boundary past the floor with `GAP_LIMIT` unused indices behind it, with all coins of the addresses derived by then |
| `RestoreSpec.BatchAdds` | src/main.rs:1738-1742 | A batch pays exactly the coins of its own addresses, none of which were there before |
| `ChatPow.SectionIsUnique` | src/chat.rs:478-521 | Bytes are an attachment section followed by a suffix if and only if the reader finds that section and suffix, so a section reads in one way whatever follows it |
| `ChatPow.ParseReads` | src/chat.rs:479-521 | Each encoded attachment reads back |
| `ChatPow.ParseIsExact` | src/chat.rs:479-521 | Only encodings are read |
| `ChatPow.PreimageBinds` | src/chat.rs:462-525 | For given lengths of sender and words, two v2 preimages are equal if and only if everything but the difference between no reply and a reply to 0 is |
| `ChatPow.LengthsMatter` | src/chat.rs:470-478 | Without the length condition every message with a sender, a UTF-8 string, shares its preimage with another one whose sender is UTF-8 too: its last character moves into the fields after it |
| `ChatPow.VersionsDiffer` | src/chat.rs:401-425 | A message never has the same preimage in both versions, but every v2 preimage is the v1 preimage of the message with the section appended to its words |
| `ChatPow.VerifyV2` | src/chat.rs:462-527 | The buffer that is hashed is the preimage |
| `ChatPow.AppendAttachment` | src/chat.rs:480-520 | Appends one encoded attachment |
| `ChatPow.MineV2` | src/chat.rs:542-562 | The least nonce that passes, or none up to 10,000,000 |

## Left out

- Mempool.Mempool.AddSpend: arithmetic on the byte counter and on sums of sizes is unbounded; the caps keep both far below 64 bits.
- Mempool.Mempool.Snapshot: `transactions_split` and `transactions_with_meta` read the same order and add nothing; receive times are not modelled.
- PoolOps.EveryRunAgrees: a consolidation handed to `add` has inputs; the original indexes the first one without looking.
- PoolOps.CommitLaw: `calculate_required_pow` is an arbitrary function of the commit count, since it is floating point.
- FullNode.FullNode.HandleNewBatch: membership in `chain_history`, and the proof-of-work and target plausibility of an orphan, are parameters.
- FullNode.FullNode.HandleNewTransaction: rate limits, the gate while syncing and the punishment of reused keys are one parameter, and relaying is not modelled.
- FullNode.FullNode.BeginSync: the rebuild runs in one step with the start of the session, on our own chain; header download, step-back and prefetching are not modelled.
- FullNode.FullNode.SyncChunkArrived: the session's timestamp window is read from its own chain; what a chunk does is modelled after its headers and proof of work were verified.
- NodeLaws.EveryRunIsSound: `handle_mined_batch` applies a block to the live state in place and is not one of the events; nor are fast-forward sync, `self_heal_rollback`, restart and pruning of old blocks.
- Storage.RebuildState: the historical self-heal branches (`src/node.rs:6768-6819` and copies) and the V4 rollback are not modelled; deleting all but 10 snapshots and failing disk operations are not either.
- Chain.ReplayFacts: depth is unbounded where the original has 128 bits; the wall-clock bound on timestamps is part of the given `execute`; full and trusted application share one model, without the spent-address table.
- Template.BuildPrefix: the first of a bounty pair is a commit, as whatever queues one makes it, and a consolidation has inputs (the original panics otherwise); the template cache and the header are not modelled.
- Template.CheckCoinbase: the arithmetic is that of a build without overflow checks; with them the original panics where the sum wraps.
- Mix.MixManager.CreateSession: id, salt and clock are parameters; status and listing functions, the join proof of work and the commit and reveal submission are not modelled.
- Mix.MixManager.Cleanup: sessions are values in the map, so aliasing is not modelled; the draw that clears the bans is a parameter.
- MixSpec.EveryRunIsSound: `set_phase` is only passed phases after signing, as by all its callers.
- Restore.Wallet.Rescan: a filter never misses a block; indices are unbounded; history entries and saving are not modelled.
- Metadata.Recover: stops before decoding the bytes as JSON; the older single-burn format is tried only after this and is not modelled.
- ArchivalWork.Generate: asks for an end below 2^64 - 1, at which the loop would not end (`ArchivalWork.TopOfRangeRepeats`); the JSON form of a bundle is not modelled.
- ChatPow.PreimageBinds: signatures and attachment lists are shorter than 2^32, the range of their length prefixes.
- Calendar.FormatUtc: yields the numbers, not their zero-padded text.
- Networking, RPC, light clients, stratum, HTLC and licence sales, peer scoring, metrics and user interface: input and output around this logic.
- WOTS, MSS, scripts, BLAKE3, denominations and difficulty adjustment: taken as functions.

# SamaVM verification

A Dafny model of the deterministic engine of SamaVM, an Avalanche virtual machine: what a
node computes from the blocks, transactions and requests that reach it. The model follows
the program's own form. Objects that the program updates in place are classes, its loops
are loops, and every operation is proved against a specification that says what it is for.

- `Sequences.dfy`, `ChainTypes.dfy`: lists without repetition; transactions, blocks, genesis
  parameters and unsigned 64-bit arithmetic.
  Hashes are symbolic: an id is a constructor applied to what it hashes, so that two ids are
  equal exactly when the hashed contents are.
- `TxHeap.dfy`, `Mempool.dfy`: the transaction pool. One set of transactions is kept in two
  indexed heaps over Go's `container/heap`, with a gossip queue that is filtered inside its
  own backing array.
- `ChainRules.dfy`: the replay window, the cost and price rules and the checks of a block
  against its ancestors, with results over whole chains: no transaction is in two blocks, and
  what a transaction needs to go into a block; block cost and price in closed form.
- `VersionDb.dfy`, `Replay.dfy`, `BlockTree.dfy`: versioned overlays, plain replay of a chain,
  and the tree of processing blocks. After any run of Verify, Accept and Reject in the order
  that Snowman consensus allows, the committed database is the genesis state with the
  accepted blocks applied in order, every live overlay is the replay of its own chain, and
  every block carries the access proof of the replay before it.
  The tree itself is tied to a plain step function over sets of block ids.
- `Builder.dfy`: block building. Nothing is lost or invented, and what is built passes
  verification exactly if it is worth its cost.
- `Reward.dfy`: staking rewards, second by second against year by year, with checkpoints, over
  runs of blocks with any number of settlements each; and what they come to of the emission.
- `Ledger.dfy`: balances and stakes, each on its own over any run, and conservation of value.
- `Conservation.dfy`: the same for the committed database and every live overlay of the tree.
- `StakeBook.dfy`: stake balances against staker records, and when a stake is locked.
- `InFlight.dfy`: any interleaving of blocks that are staged, aborted builds and acceptances,
  over one shared cache.
- `StakeCache.dfy`, `PowCache.dfy`: caches that stage the changes of the block in flight and
  agree with the database and its overlay throughout a run of blocks, and exactly when they
  still do if several blocks are in flight.
- `Governance.dfy`: registrations, proposals, votes and confirmation.
- `BlockStore.dfy`: storing a block with its values kept apart, and loading it again.
- `TypedData.dfy`: the type walk and the type encoding of EIP-712.
- `FileTree.dfy`: files in chunks under content hashes.

`dafny verify dfyconfig.toml` checks everything.

Three conventions hold throughout. Executing a transaction is a parameter of the block tree
(`Rules.exec`), a deterministic function of what the database shows, the block time and the
transaction, which may write before it fails. Clock readings are parameters (`now`, `wall`).
A step of the program that this model does not look into, such as the check of a work key,
appears as a Boolean parameter (`checked`).

Where a property fails for some inputs, the model keeps the program as it is, shows an input
and says exactly when the property holds:

- Every transaction occurs once on a verified chain exactly if no single block repeats one
  (`ChainRules.OnceOnChainIff`). A block may: a copy of one of its own transactions passes if
  it fits, executes once more and leaves the surplus high enough (`ChainRules.RepeatPasses`,
  `BlockTree.VM.RepeatIsAcceptable`).
- What `NewTxs` hands out contains no transaction twice exactly if the queue holds no pooled
  one twice. Building a block queues again what it puts back (`Mempools.Mempool.NewTxsRun`,
  `Mempools.SentOnceIff`, `Mempools.PutBackIsSentTwice`).
- `onAccept` gives the state after a block exactly for the buildable blocks; a live block of
  height zero is taken for genesis, and heights are not checked, so there can be one
  (`BlockTree.VM.OnAcceptIsState`, `BlockTree.VM.HeightIsUnchecked`,
  `BlockTree.VM.HeightZeroGoesLive`).
- All claims, stakes and unstakings of a block settle from the committed reward records and
  overwrite what the ones before have written. So what a claim pays before the last
  settlement of its kind in the block is paid or owed once more. If all settle at one time, a
  block pays a staker once exactly if it is owed nothing or claims last if at all; in general,
  exactly if every claim but the last settlement pays it nothing; and a run of blocks pays what
  accrued and what it pays twice: `Reward.SameTimePaysOnceIff`,
  `Reward.BlockPaysOnceIff`, `Reward.RunPays`, `Reward.ClaimIsPaidTwice`. A claim at the very
  time of staking pays and leaves the record as it was: `Reward.ClaimAtStakeRepeats`.
- Settling a reward early changes nothing unless a later payment ends in an earlier year;
  an address that stakes again is paid for the time in between: `Reward.SettleThenPay`,
  `Reward.EarlySettlementOverpays`, `Reward.PaidOnlyWhileStaked`, `Reward.StakedAgainIsPaid`.
- Unstaking adds stake and reward without a check, and pays exactly the reward exactly if the
  sum fits in 64 bits: `Ledger.UnstakePaysReward`, `Ledger.UnstakeOverflows`.
- Stake balances are the sums of the staker records exactly as long as nobody stakes for
  somebody else, replaces a record or unstakes one twice. A stake for another address is
  locked as long as everybody goes on on their own account; it is unlocked if the named
  address stakes as much for a third one: `StakeBook.RunKeepsBacked`,
  `StakeBook.StakeForAnother`, `StakeBook.AnotherStakeUnlocks`.
- A commit to a cache keeps the pending changes of every block in flight, and neither
  rejection nor a failed verification aborts any. The staker cache agrees with the database
  throughout a run exactly if at every acceptance, for every staker, the last pending change
  leaves the same as the block's last change, and for one block among others there is a guard
  on those last changes. The proof-of-work cache also writes the pending work of other
  blocks; if no two proofs in play are of one transaction, it agrees throughout a run exactly
  if whoever works in an accepted block has not worked since it was staged nor lost it to an
  abort, and nobody else has work pending: `StakeCache.RunInStep`,
  `StakeCache.StakerState.AcceptAmong`, `StakeCache.OverlapBreaks`, `PowCache.RunInStep`,
  `PowCache.PowState.AcceptAmong`, `PowCache.UndisturbedIsWhoWorks`,
  `PowCache.OthersWorkCounts`.
- Of several votes on an action in one block only the last accepted one is kept, so none is
  lost exactly if they are all of one sender: `Governance.ActionsState.VoteInOneBlock`.
- Confirmation of a new staker depends on the order of a map exactly if actions that propose
  it differ in being confirmed; it never does as long as each new staker is proposed once,
  and that holds throughout a run exactly if no step proposes one that is proposed under
  another id: `Governance.ActionsState.OneAnswer`, `Governance.RunKeepsStakers`,
  `Governance.RegisterTwice`.
- Storing and loading a block gives it back, and leaves it alone in memory, exactly if no
  transaction object is in it twice that carries a value other than its own id:
  `BlockStore.StoreAndLoad`, `BlockStore.SharedObject`. Such a block is an input of
  `SetLastAccepted` only, outside what the node receives: blocks that are parsed or built have
  an object of its own for each transaction.
- A type without fields is not encoded as EIP-712 asks: `TypedData.WrittenIsEncoded`.
- An empty file comes back as a chunk of zeros: `FileTree.UploadThenDownload`.

## Model

| member | source | states |
|---|---|---|
| TxHeaps.SwapUp | mempool/tx_heap.go:40-51 | swapping an entry with its parent moves the only place where heap order may fail up to the parent |
| TxHeaps.SwapDown | mempool/tx_heap.go:40-51 | swapping an entry with its first child moves the only place where heap order may fail down to the child |
| TxHeaps.SwapLast | mempool/tx_heap.go:47-72 | after the last entry has been swapped to a position, the others are in order except around that position |
| TxHeaps.RootIsFirst | mempool/tx_heap.go:40-45 | no entry of an ordered heap comes before the root: order is global, not only between neighbours |
| TxHeaps.TxHeap.LookupInverse | mempool/tx_heap.go:47-72 | the lookup finds every id at the position its entry stores, so the lookup and the items are inverse to each other |
| TxHeaps.TxHeap.Swap | mempool/tx_heap.go:47-51 | exchanges two entries and both stored positions, and nothing else |
| TxHeaps.TxHeap.Push | mempool/tx_heap.go:53-63 | appends an entry and records it in the lookup |
| TxHeaps.TxHeap.Pop | mempool/tx_heap.go:65-72 | removes the last entry from the items and the lookup |
| TxHeaps.TxHeap.Up | mempool/tx_heap.go:40-51 | the upward sift restores heap order if only the pair above the start could be wrong |
| TxHeaps.TxHeap.Down | mempool/tx_heap.go:40-51 | the downward sift restores order below its start and tells whether the entry moved |
| TxHeaps.TxHeap.HeapPush | mempool/mempool.go:58-70 | an ordered, indexed heap stays so and gains exactly the new entry |
| TxHeaps.TxHeap.HeapRemove | mempool/mempool.go:211-230 | an ordered, indexed heap stays so and loses exactly the entry at the position |
| Mempools.Mempool.constructor | mempool/mempool.go:34-42 | a new pool is empty, with two valid heaps of opposite direction |
| Mempools.Mempool.RootIsHighest | mempool/mempool.go:112-118 | the first entry of the max heap has the highest price of the whole pool |
| Mempools.Mempool.RootIsLowest | mempool/mempool.go:205-208 | the first entry of the min heap has the lowest price of the whole pool |
| Mempools.Mempool.Add | mempool/mempool.go:44-91 | the pool becomes the old set with the transaction, less one lowest-priced element if it was full; true exactly if the transaction is newly present, and only then is it queued for gossip; both heaps stay in step and the size within its limit |
| Mempools.Mempool.Insert | mempool/mempool.go:56-82 | the heap half of Add: push on both heaps, then drop a lowest-priced transaction if over size |
| Mempools.Mempool.PushBoth | mempool/mempool.go:56-70 | both heaps gain the transaction, although the min heap entry takes its position from the length of the max heap |
| Mempools.Mempool.Enqueue | mempool/mempool.go:88-90 | the gossip queue gains the transaction at its end |
| Mempools.Mempool.PopMax | mempool/mempool.go:112-118 | returns a transaction of highest price and removes exactly that one from both heaps |
| Mempools.Mempool.PopMin | mempool/mempool.go:205-208 | returns a transaction of lowest price and removes exactly that one from both heaps |
| Mempools.Mempool.Remove | mempool/mempool.go:211-230 | removes exactly the named transaction from both heaps, or reports that it is not there |
| Mempools.Mempool.Prune | mempool/mempool.go:136-149 | leaves exactly the transactions that name one of the given blocks |
| Mempools.Mempool.SelectPooled | mempool/mempool.go:177-202 | the loop of NewTxs selects, in order, the pooled part of the prefix it consumes, as much as fits, and leaves the rest of the shared array as it was |
| Mempools.Mempool.NewTxs | mempool/mempool.go:177-202 | hands out that selection and keeps exactly the suffix that was not consumed, although both share their memory |
| Mempools.PoolOnlyConcat | mempool/mempool.go:177-202 | filtering a queue by the pool and cutting it in two can be exchanged |
| Mempools.SentOnceIff | mempool/mempool.go:184-199 | the pooled part of a queue holds no transaction twice if and only if the queue holds no pooled one twice |
| Mempools.Mempool.NewTxsRun | mempool/mempool.go:177-202 | successive calls hand out, in order, exactly the pooled part of the queue up to where they got, none twice if and only if the queue holds no pooled one twice |
| Mempools.PutBackIsSentTwice | chain/builder.go:57-63 | a transaction that is popped and put back is queued again and handed out twice |
| GoSlices.Append | mempool/mempool.go:88-90 | append adds one element, in place while there is capacity and else in fresh memory, and changes no other cell |
| ChainTypes.LoadOfValue | chain/common_tx.go:15-17 | a value is paid for in units of its size, rounded up, and one more where it fills the last one |
| ChainRules.NoReplay | chain/tx.go:90-101 | no transaction id occurs in two different blocks of one verified chain |
| ChainRules.LaterWindowSees | vm/helpers.go:21-41 | where two blocks of a chain both see a named block, the window of the later one contains the earlier one |
| ChainRules.OnceOnChainIff | chain/tx.go:94-101 | every transaction occurs once on a whole verified chain if and only if no single block repeats one within itself |
| ChainRules.RepeatPasses | chain/block.go:163-218 | a block that passes the stateless checks also passes them with any of its transactions repeated if and only if the copy fits |
| ChainRules.TxChecked | chain/tx.go:86-101 | every transaction of a verified chain passed its checks against the window of its own block |
| ChainRules.WindowIsRecent | vm/helpers.go:21-41 | the window holds exactly the last block and those no older than the lookback window, down to the last one of height zero |
| ChainRules.WindowUnitsAreRecent | vm/chain_vm.go:76-85 | the load of the window is the sum of the loads of the recent blocks |
| ChainRules.TxOkIff | chain/base_tx.go:50-57 | a transaction passes the checks against the chain exactly if it has the magic number, pays the minimum price, names a recent block and is in no recent block |
| ChainRules.TxsMayGoOn | chain/tx.go:86-101 | so it was for every transaction of a verified chain |
| ChainRules.AncestorsDistinct | vm/helpers.go:21-41 | no block occurs twice among its own ancestors, so the walk back through parents is well defined |
| ChainRules.CostIsLargestRush | vm/chain_vm.go:90-105 | the cost of a block is the largest excess of block production over the target rate among all runs of blocks that end in it |
| ChainRules.RushForcesCost | vm/chain_vm.go:90-105 | any k blocks produced in s seconds force a cost of at least k times the target rate less s |
| ChainRules.CostIsFixed | vm/chain_vm.go:90-105 | with block costs switched off every block has the cost of genesis |
| ChainRules.BlocksFit | chain/block.go:163-185 | every block above genesis has transactions that fit and is no earlier than its parent |
| ChainRules.PriceStaysAboveMinimum | vm/chain_vm.go:107-119 | the price never falls below its minimum, rises by at most one a block, exactly after a busy window, and falls only after a quiet one |
| ChainRules.PriceFall | vm/chain_vm.go:111-118 | after a quiet window the price is what it was less one more than the whole windows since the parent, or the minimum |
| ChainRules.PriceIsLargestDrift | vm/chain_vm.go:107-119 | the price of a block exceeds the minimum by the largest drift among all runs of blocks that end in it: one up for each busy window, down by the falls of the quiet ones |
| ChainRules.QuietRunLowersPrice | vm/chain_vm.go:107-119 | after a run of blocks on quiet windows the price is the larger of the minimum and the price before less the sum of the falls |
| VersionDb.ApplyTwice | chain/block.go:249-251 | writing one batch and then another is writing their union, so committing an overlay into the next loses no write |
| VersionDb.Database.Get | chain/block.go:198-202 | reading through the stack of overlays answers from the topmost write |
| VersionDb.Database.Commit | chain/block.go:249-251 | the base afterwards shows what the overlay showed, and the overlay still shows it |
| VersionDb.Database.SetDatabase | chain/block.go:252-256 | the overlay afterwards shows its own writes on top of the new base |
| Replay.StateIsReplay | chain/block.go:228-261 | the state after a verified block is the genesis state with the blocks of its chain applied in order |
| Replay.SurplusIsExcess | chain/block.go:209-222 | the surplus fee is what the transactions pay less their load at the block price, modulo 2^64 |
| Replay.ProofIsOfReplay | chain/block.go:203-207 | every block of a verified chain carries the access proof of the replay of the blocks before it, and pays for its cost |
| BlockTree.VM.constructor | vm/vm.go:184-206 | the tree starts with genesis accepted, nothing processing, and the genesis allocation and block committed |
| BlockTree.VM.Lookback | vm/helpers.go:21-41 | visits exactly the replay window, newest block first, and fails only for an unknown start |
| BlockTree.VM.Collect | vm/chain_vm.go:76-85 | the callback collects exactly the ids, transactions, load, prices and costs of the window |
| BlockTree.ListedBackwards | vm/chain_vm.go:76-85 | the prices and costs in the context are those of the window, newest block first |
| BlockTree.VM.Fees | vm/chain_vm.go:90-119 | the step-by-step adjustment computes the cost and price that the rules demand |
| BlockTree.VM.ExecutionContext | vm/chain_vm.go:69-131 | the context depends only on the block time and the chain below, and is found for every block of the tree |
| BlockTree.VM.ExecuteTx | chain/tx.go:86-124 | succeeds exactly if the checks against the context pass and execution does, and then the overlay shows the writes |
| BlockTree.VM.ExecuteTxs | chain/block.go:209-218 | succeeds exactly if every transaction passes its checks and the run from the state shown succeeds; gives the surplus fee in wrapping arithmetic |
| BlockTree.VM.CheckSize | chain/block.go:169-175 | the loop that stops early decides whether the whole block fits |
| BlockTree.VM.VerifyHeader | chain/block.go:159-196 | the checks before the state pass exactly for a timely block that fits, on a known parent, with the right time, cost and price |
| BlockTree.VM.VerifyBlock | chain/block.go:159-225 | verify succeeds exactly for an acceptable block and returns a new overlay on the parent's state that shows the block's transactions; it complains of the access proof exactly if all before it passes and the proof is not that of the parent's state |
| BlockTree.VM.OneProofPasses | chain/block.go:203-207 | on one parent at one height exactly one access proof passes, that of the database that onAccept names for the parent |
| Replay.LastAcceptedIs | chain/storage.go:225-245 | the state after a block, genesis included, names that block as the last accepted one and holds it |
| BlockTree.VM.OnAcceptIsState | chain/block.go:294-302 | the database that onAccept names shows the state after a live or last accepted block if and only if the block is buildable on |
| BlockTree.VM.HeightIsUnchecked | chain/block.go:159-225 | with the access proof that belongs to it a block is acceptable at every height or at none |
| BlockTree.VM.HeightZeroGoesLive | chain/block.go:294-302 | any acceptable block has a twin of height zero that joins the tree, for which onAccept then names a database that does not show its state |
| BlockTree.VM.RepeatIsAcceptable | chain/block.go:163-225 | an acceptable block stays acceptable with one of its transactions repeated if and only if the copy fits, executes once more and leaves the surplus high enough |
| BlockTree.VM.Verify | chain/block.go:228-245 | succeeds exactly for an acceptable block, which then joins the tree with an overlay that replays its chain; nothing else changes |
| BlockTree.VM.CommitAndRebase | chain/block.go:249-256 | commits the block's overlay and puts its children's overlays on the committed database without changing what any other overlay shows |
| BlockTree.VM.Accept | chain/block.go:248-261 | the tree stays valid, the block is the last accepted one, and every block that is still live shows what it showed before |
| BlockTree.VM.Reject | chain/block.go:264-268 | forgetting a block that conflicts with an accepted one keeps the tree valid |
| BlockTree.VM.CommittedIsReplay | chain/block.go:248-261 | the committed database is the genesis state with the accepted blocks applied in order |
| BlockTree.VM.OverlayIsReplay | chain/block.go:228-245 | the overlay of every live block is the genesis state with the blocks of its own chain applied in order |
| BlockTree.VM.ProofsFollowReplay | chain/block.go:203-207 | every block above genesis, accepted or live, carries the access proof of the replay of the blocks before it, and pays for its cost |
| BlockTree.VM.Run | chain/block.go:228-268 | over any run of steps the accepted, processing and last accepted block ids become what a plain step function over sets says, the tree stays valid and the committed database is the replay of the accepted chain |
| PoolLoops.AddAll | vm/chain_vm.go:43-49 | putting transactions back adds no others and evicts none if there is room for all; the gossip queue then gains exactly those that were not pooled, each once, and else only some of them |
| PoolLoops.RemoveAll | vm/chain_vm.go:35-41 | the transactions of a verified block, and only they, leave the pool |
| Builder.Job.TakeNext | chain/builder.go:70-81 | choosing a transaction of highest price that runs and fits keeps the block runnable, within size, distinct and in falling price order |
| Builder.TakeDearest | chain/builder.go:57-82 | prices in the block never rise and no pooled transaction is dearer than a chosen one |
| Builder.TryTx | chain/builder.go:71-78 | a transaction runs on an overlay of its own: success commits its writes, failure leaves the block's overlay as it was |
| Builder.PopPaying | chain/builder.go:57-63 | takes a highest-priced transaction out of the pool, or, if no pooled one pays the price, none, and queues a highest-priced one for gossip again |
| Builder.SelectTxs | chain/builder.go:46-82 | ends with every transaction of the pool chosen, failed, too large or still pooled, the pooled ones below the block price, and the overlay showing the chosen run |
| Builder.Assemble | chain/builder.go:30-82 | the pruned pool is exactly the chosen transactions, the failed ones and the pool afterwards; nothing put back is evicted, and the gossip queue gains all that was too large and only pooled transactions |
| Builder.AssembledIsAcceptable | chain/builder.go:84-94 | builder and verifier agree: the assembled block is acceptable exactly if it is not empty, not earlier than its parent and worth its cost |
| Builder.BuiltAtPrice | chain/builder.go:57-82 | every chosen transaction pays the price that the rules demand of the next block, and of the pooled ones only those set aside as too large do |
| Builder.BuildBlock | chain/builder.go:15-99 | all of that for a whole build: where every transaction went, what is queued for gossip again, when a block results, and that the block is acceptable |
| Reward.AccruedSplit | chain/state.go:338-369 | cutting an interval loses and repeats no second |
| Reward.StakerReword | chain/state.go:297-380 | the loop over years, in 64-bit arithmetic, adds to what was carried over exactly what accrues second by second, also when the end lies before the start |
| Reward.CutsByYear | chain/state.go:338-358 | the branches for the working time cut the interval at the years |
| Reward.YearsPartitionTime | chain/state.go:338-358 | the working times of all rounds add up to the interval, each within a year |
| Reward.RewardIsCapped | chain/state.go:341-369 | all stakers of a kind together earn at most the kind's totals of the years they worked in |
| Reward.WholeYearPays | chain/state.go:341-369 | a whole year pays the stakers of a kind their base, rounded down to whole tokens a second for each |
| Reward.BaseOfEmission | chain/state.go:341-364 | the base of a kind is its percentage, for routes and servers also the base percentage, of the emission: never more, and unless a product overflows less only by the rounding |
| Reward.YearWithinEmission | chain/state.go:341-364 | if the percentages add up to at most 100 the bases of all kinds are within the emission of the year |
| Reward.RewardsWithinEmission | chain/state.go:338-369 | then all stakers of all kinds together never earn more than the emissions of the years they worked in |
| Reward.SettleThenPay | chain/state.go:323-329 | settling first and paying later comes to the same as paying at once if and only if nothing is overpaid |
| Reward.RunPaysEverySecondOnce | chain/state.go:475-500 | over any settlements in order of time, each committed before the next, the payouts and what is still owed add up to what accrued |
| Reward.SettleClaim | chain/claim_tx.go:40-75 | one claim pays its sender what it is owed by the committed record, and leaves each staker of the kind who staked before with a pending record, empty for the sender |
| Reward.SettleClaims | chain/block.go:209-218 | the settlements of a block pay every staker the sum of its own claims, each from the committed record, and leave pending what the last of them writes |
| Reward.BlockBalance | chain/state.go:475-544 | what a block pays to a staker and leaves it exceed what it was owed at the last settlement by exactly what its other claims in the block pay |
| Reward.BlockPaysOnceIff | chain/state.go:475-544 | a staker gets from a block, in pay and record, what it was owed at the last settlement if and only if every claim but the last settlement pays it nothing |
| Reward.SameTimePaysOnceIff | chain/state.go:475-544 | if the settlements of a block are all at one time: if and only if it is owed nothing or none of them but the last is its own claim |
| Reward.BlockLosesNothing | chain/state.go:475-544 | what a block pays and what is owed later come to what would have been owed later without the block, exactly if nothing is overpaid or paid twice |
| Reward.PlayBlock | chain/block.go:248-261 | the settlements of a block pay and write, and are committed together: every staker is paid and left with what its account says, everybody else keeps the record |
| Reward.RunPays | chain/state.go:460-544 | over any run of blocks with any settlements in them, while other stakers come and go, what an address is paid and is still owed exceeds what accrued to it second by second by exactly what the claims before the last settlement of their block pay, so it is the same if and only if that is nothing |
| Reward.LastClaimsPayOnce | chain/state.go:475-500 | it is nothing if the address claims only in settlements that are the last ones of their blocks |
| Reward.ClaimIsPaidTwice | chain/claim_tx.go:40-75 | a staker claims and then another claims in the same block: the first is paid and is owed the same amount again |
| Reward.ClaimAtStakeRepeats | chain/state.go:475-544 | a claim at the very time of staking pays what is owed and leaves the record as it was |
| Reward.RewardState.UpdateStakerReward | chain/state.go:460-517 | writes a record for exactly the stakers of the kind who staked before: the claimer's is empty, the others' hold what they are owed |
| Reward.RewardState.CalcReward | chain/state.go:519-544 | answers exactly for stakers of the kind who have staked by then, with what they are owed |
| Reward.RewardState.Commit | chain/reward_status.go:219-240 | the written records replace the committed ones, whatever the order of the map |
| Reward.SettlementKeepsOwed | chain/state.go:475-500 | a settlement changes nothing for a staker who does not claim, exactly if nothing is overpaid |
| Reward.ClaimLosesNothing | chain/state.go:475-500 | a claim whose record is the one that is committed and what is owed after it come to what would have been owed without it, exactly if nothing is overpaid |
| Reward.PaidOnlyWhileStaked | chain/state.go:318-329 | an address that stakes again is paid for the time it has staked if and only if nothing accrues between its last settlement and the new stake |
| Reward.StakedAgainIsPaid | chain/state.go:318-329 | parameters for which an address that stakes again is owed a token for the time in between |
| Reward.EarlySettlementOverpays | chain/state.go:323-369 | parameters for which a settlement at the start of a year overpays by a token |
| Ledger.SumSet | chain/storage.go:346-351 | setting one amount changes the total by the difference |
| Ledger.SafeAdd | chain/storage.go:363 | flags exactly the sums that exceed 64 bits and is exact on the others |
| Ledger.SafeSub | chain/storage.go:365 | flags exactly the differences below zero and is exact on the others |
| Ledger.Store.ModifyBalance | chain/storage.go:353-371 | changes one balance by the amount, or fails and changes nothing, exactly if it would leave its range |
| Ledger.Store.ModifyStakeBalance | chain/storage.go:393-411 | the same for stake balances |
| Ledger.Conserved | chain/tx.go:103-118 | a successful transaction changes the total of balances and stakes by its fee and its inflow only |
| Ledger.ActionConserves | chain/transfer_tx.go:39-44 | a transfer moves value and staking locks it without changing the total; claims and unstaking bring the reward in, user payments go out |
| Ledger.UnstakePaysReward | chain/unstake_tx.go:54-67 | a successful unstaking changes the total by exactly the reward, less the fee, if and only if stake and reward together fit in 64 bits |
| Ledger.UnstakeOverflows | chain/unstake_tx.go:54-67 | funds and a transaction for which unstaking succeeds, the stake is gone and no reward comes in |
| Ledger.OthersUntouched | chain/transfer_tx.go:26-46 | nobody's funds change but the sender's and the recipient's, whose balance grows by exactly the units |
| Ledger.SenderPays | chain/stake_tx.go:47-53 | what the sender owns in balance and stake changes by the fee, the inflow and the units sent |
| Ledger.SucceedsIff | chain/tx.go:103-118 | when a transaction succeeds, in amounts: the sender can pay fee and action, nothing leaves its range, and a transfer is to somebody else |
| Ledger.MovesEach | chain/stake_tx.go:47-53 | by how much balance and stake balance of every address change, apart: a stake goes from the balance to the stake balance, an unstaking back |
| Ledger.StakeThenUnstake | chain/unstake_tx.go:54-67 | staking an amount and unstaking it without reward gives everybody the funds back less the sender's fees; the unstaking succeeds exactly if its fee is there |
| Ledger.RunMovesEach | chain/storage.go:353-411 | over any run a stake balance changes by what the address stakes less what it unstakes, and its balance by everything else it pays and is paid |
| Ledger.RunConserves | chain/storage.go:353-411 | over any run the total is the initial one less all fees plus all inflows |
| Ledger.Store.Execute | chain/tx.go:103-118 | the step-by-step writes succeed exactly if the transaction does, and then leave its funds |
| Ledger.Store.ExecuteAll | chain/block.go:209-218 | the transactions of a block take effect together or not at all, and conserve value |
| StakeBook.NextKeepsBacked | chain/stake_tx.go:36-61 | a stake or unstaking keeps every stake balance the sum of the address's records if and only if it is for the sender, replaces no record and takes out what is recorded |
| StakeBook.RunKeepsBacked | chain/unstake_tx.go:38-54 | that holds throughout a run of stakes, unstakings, commits and aborts if and only if every step is such a step |
| StakeBook.RunKeepsExcess | chain/unstake_tx.go:38-54 | such steps leave what an address has locked beyond its records where it is |
| StakeBook.RunKeepsLocked | chain/unstake_tx.go:38-54 | a record of an address without a stake balance stays as it is over any run of steps that everybody takes on their own account |
| StakeBook.StakeForAnother | chain/stake_tx.go:47-61 | over any such run after its commit a stake for another address cannot be unstaked by that address, and stays in the sender's stake balance |
| StakeBook.AnotherStakeUnlocks | chain/stake_tx.go:36-61 | if the named address stakes as much for a third one it can unstake what was staked for it |
| StakeBook.ValidatorStays | chain/unstake_tx.go:25-45 | a validator's committed record stays as it is over any run: it cannot be unstaked and nobody can stake for the address again |
| Conservation.RunMovesFunds | chain/block.go:209-218 | executing the transactions of a block moves the funds in the database as the ledger does |
| Conservation.FundsAreHistory | chain/block.go:228-261 | the funds after a block are the genesis allocation with the transactions of its whole chain applied |
| Conservation.ChainConserves | chain/storage.go:353-411 | on every chain the total of balances and stakes is the genesis allocation less all fees plus all inflows |
| Conservation.TreeConserves | chain/block.go:228-261 | so it is for the committed database and the overlay of every live block |
| Conservation.LedgerMovesFunds | chain/tx.go:103-118 | the assumption on execution can be met: executing by the ledger moves the funds as the ledger does |
| InFlight.PendingAmong | chain/block.go:248-268 | after a block has been staged among others, what is pending is what was staged since the last abort |
| InFlight.AmongIsRun | chain/block.go:248-261 | staging a block among others and accepting it is a run, and commits exactly what is pending |
| InFlight.ToldConcat | chain/builder.go:83-96 | after further events the cache shows what it showed before and what they add, or, if they first abort, what it had committed and what they add |
| StakeCache.ScanAt | chain/stake_status.go:224-243 | the scan of a kind finds exactly the records under its keys |
| StakeCache.ScanPut | chain/stake_status.go:193-204 | writing a record changes the scan of its kind by that record and no other scan |
| StakeCache.ScanDel | chain/stake_status.go:215-222 | deleting a record removes it from the scan of its kind and changes no other scan |
| StakeCache.StakerState.PutStaker | chain/stake_status.go:193-204 | stages the record in the cache and in the overlay alike, whatever else is staged; the current stakers stay |
| StakeCache.StakerState.DelStaker | chain/stake_status.go:215-222 | stages the deletion in the cache and in the overlay alike, whatever else is staged; the current stakers stay |
| StakeCache.StakerState.Reload | chain/stake_status.go:224-243 | the cache rebuilt from a database is a scan of it with nothing pending |
| StakeCache.StakerState.CacheStakersCommit | chain/stake_status.go:245-267 | the staged stakers become the current ones, whatever the order of the maps |
| StakeCache.StakerState.CacheStakersAbort | chain/stake_status.go:269-280 | nothing stays pending and the current stakers are as before |
| StakeCache.StakerState.RunBlock | chain/builder.go:71-96 | after any changes of a block that is accepted, or whose building is aborted, the cache is a scan of the database, changed by exactly the accepted changes |
| StakeCache.StakerState.RunBlocks | chain/stake_status.go:193-280 | so it is after any number of blocks one after the other |
| StakeCache.SameOutcomeIff | chain/stake_status.go:193-222 | two lists of changes lead to the same stakers if and only if for every staker their last changes leave the same, or what was there where only one list has a change |
| StakeCache.RunInStep | chain/block.go:248-261 | throughout any run of stagings, aborts and acceptances the cache agrees with the database if and only if at every acceptance what is pending leaves every staker as the block does |
| StakeCache.UndisturbedIff | chain/block.go:248-268 | for a block among others that comes down to a guard on the last change of the staker in the earlier blocks, the block and the later ones |
| StakeCache.StakerState.Run | chain/block.go:248-268 | over any run the current stakers change by all that was pending at the acceptances and the database by the accepted blocks, so they agree if and only if every staker's last changes in the two leave the same |
| StakeCache.StakerState.AcceptAmong | chain/block.go:248-261 | a block accepted while others are staged and aborted makes everything pending current, and the cache agrees with the database if and only if the guard holds for every staker |
| StakeCache.OverlapBreaks | chain/builder.go:83-96 | the guard fails if a second block with a new staker is verified first, and if building a block aborts after a block with a new staker |
| StagedMaps.Merge | chain/stake_status.go:250-257 | the two merging loops compute the union of additions less deletions in any order |
| PowCache.PowState.PutPow | chain/pow_status.go:135-176 | adds a proof to the miner's pending record, in place if there is one, and writes that record to the overlay, without touching a current record |
| PowCache.PowState.Stage | chain/pow_status.go:135-176 | the cache shows the growth by all proofs of a block; its overlay takes over what the cache shows for the miners of the block |
| PowCache.PowState.DelPow | chain/pow_status.go:196-203 | stages the deletion in the cache and in the overlay alike |
| PowCache.PowState.TotalPowTime | chain/pow_status.go:178-185 | the wrapped sum of all miners' times, independent of the order of the map |
| PowCache.PowState.Reload | chain/pow_status.go:205-222 | fresh record objects for exactly what the database holds |
| PowCache.PowState.CachePowsCommit | chain/pow_status.go:224-244 | after a commit the cache holds what the overlay held, with nothing pending |
| PowCache.PowState.CachePowsAbort | chain/pow_status.go:246-257 | after an abort the cache holds what the committed database holds, although pending records were updated in place |
| PowCache.PowState.RunBlock | chain/builder.go:71-96 | what is stored grows by exactly the proofs of a block if it is accepted, and not at all if building it is aborted |
| PowCache.PowState.RunBlocks | chain/pow_status.go:135-257 | after any number of blocks one after the other what is stored has grown by exactly the proofs of the accepted ones, and each miner's time and flow by its own work in them, modulo 2^64 |
| PowCache.GrownIsJoined | chain/pow_status.go:139-168 | proofs make of a record what they make of none, with its totals added modulo 2^64 |
| PowCache.SameGrowthIff | chain/pow_status.go:139-168 | two lists of proofs lead to the same record if and only if they alone lead to the same, or, where only one has work, it bears the record's mark and its totals come round to nothing |
| PowCache.UndisturbedIff | chain/block.go:248-268 | for a block among others that comes down to a guard on the earlier blocks, the block and the later ones |
| PowCache.UndisturbedIsWhoWorks | chain/block.go:248-268 | if the proofs are of different transactions the guard says who works where: nobody in a later block, and after an abort nobody in the block either, else only miners of the block in an earlier one |
| PowCache.RunInStep | chain/block.go:248-268 | if the proofs are of different transactions, the cache agrees with the database on a miner throughout any run of stagings, aborts and acceptances if and only if at every acceptance the miner, if it works in the block, has not worked since and the block was not lost to an abort, and else has no work pending |
| PowCache.PowState.Run | chain/block.go:248-268 | over any run the cache keeps all that was pending at the acceptances, the database for every miner what the cache showed when the last accepted block with its work was staged; they agree if and only if these lists lead to the same record |
| PowCache.PowState.AcceptAmong | chain/block.go:248-261 | what an accepted block leaves in the cache and in the database when others are staged and aborted around it, and that the cache agrees if and only if the guard holds for every miner |
| PowCache.OthersWorkCounts | chain/pow_status.go:139-149 | a miner of an accepted block is also credited with its work in all blocks pending when it was staged, accepted or not |
| PowCache.TimeGrowsByWork | chain/pow_status.go:135-176 | a miner's total time grows by the time of its own proofs, modulo 2^64 |
| PowCache.FlowGrowsByWork | chain/pow_status.go:139-168 | and its total flow by the flow of its own proofs |
| PowCache.LastProofMarks | chain/pow_status.go:139-168 | the record bears the transaction and the time of the miner's last proof |
| Governance.DistinctSize | chain/action_status.go:114-122 | counting votes counts voters, because voters are distinct |
| Governance.ActionsState.Register | chain/register_tx.go:42-115 | stages a new staker's action under any id with the first vote of an entitled sender, and nothing else |
| Governance.ActionsState.ProposalRepeat | chain/action_status.go:184-205 | true exactly if the id or the key is in use, committed or staged |
| Governance.ActionsState.Propose | chain/proposal_tx.go:27-103 | succeeds exactly for a checked proposal whose id and key are not in use, and then stages it and nothing else |
| Governance.ActionsState.Vote | chain/vote_tx.go:23-62 | succeeds exactly for a route, or for the root with at most three routes, that has not voted on a lasting committed action; stages a copy with that one voter more and nothing else, and logs the routes of the time |
| Governance.ActionsState.CacheActionsCommit | chain/action_status.go:154-171 | the staged actions become current and keep voters distinct and keys apart |
| Governance.ActionsState.GetVotersNum | chain/action_status.go:114-122 | finds some committed action of the type with the key, exactly if there is one |
| Governance.ActionsState.IsBeConfirmed | chain/state.go:609-632 | gives an answer that some order of the map leads to: true exactly if the action found has the root's vote, or from three routes on two thirds of their number in votes |
| Governance.ActionsState.ConfirmedByEntitledVoters | chain/state.go:609-632 | confirmation with three or more routes takes exactly two thirds of their number in different voters, each a route of the set logged when it voted or the root while that set had at most three |
| Governance.ActionsState.ConfirmedByRoot | chain/state.go:617-627 | with fewer it takes exactly the root's vote while the action lasts |
| Governance.StrangersNeverVote | chain/vote_tx.go:24-38 | whoever is not the root and no route at the start or at any commit of a run is not among the voters of any action after it |
| Governance.ActionsState.OneActionPerKey | chain/action_status.go:184-205 | but for new stakers no two committed actions share a key, so confirmation does not depend on the order of the map |
| Governance.LastIsAccepted | chain/vote_tx.go:23-62 | there is a last accepted vote if and only if some vote is accepted |
| Governance.OneVoteIsKept | chain/vote_tx.go:56-60 | the voters of the action with that vote are those before and all accepted senders if and only if there is one accepted sender |
| Governance.ActionsState.VoteInOneBlock | chain/vote_tx.go:23-62 | after any votes on an action in one block the last accepted one is staged on the committed action and nothing else changes: nothing is staged if and only if none is accepted, and no accepted voter is missing if and only if there is one accepted sender |
| Governance.PutKeepsStakers | chain/register_tx.go:88-96 | putting an action leaves each new staker proposed once if and only if the other actions propose each once and not the same one |
| Governance.NextKeepsStakers | chain/register_tx.go:42-115 | a step leaves each new staker proposed once, committed and staged, if and only if it proposes none that is proposed under another id |
| Governance.RunKeepsStakers | chain/register_tx.go:42-115 | each new staker is proposed once throughout a run if and only if no step of it proposes one that is proposed under another id |
| Governance.ActionsState.OneAnswer | chain/action_status.go:114-122 | confirmation has one possible answer if and only if the actions that could be found agree |
| Governance.ActionsState.OneAnswerIfStakersDiffer | chain/state.go:609-632 | it has one for every type and key while each new staker is proposed once |
| Governance.RegisterTwice | chain/register_tx.go:88-96 | a new staker can be registered under two ids, and then both answers are possible |
| Governance.Run | chain/vote_tx.go:23-62 | any run of registrations, proposals, votes, deletions, commits and aborts does what a plain step function over the maps says, voters stay distinct and keys apart, and every vote is logged with the routes of the start or of a commit of the run |
| BlockStore.LinkObject | chain/storage.go:179-197 | stores the value an object carries under its id and leaves the id in its place |
| BlockStore.LinkValues | chain/storage.go:174-201 | the values found are stored, the objects hold ids in their place, and the result are the transactions as they were found; all of that also for objects that occur twice |
| BlockStore.LastWrite | chain/storage.go:189-193 | the last object with an id that finds a value decides what is stored under the id |
| BlockStore.StoredWithoutValues | chain/storage.go:174-201 | a block is stored with an id in place of every value that is not empty and with something under that id, and otherwise as it was |
| BlockStore.SetLastAccepted | chain/storage.go:225-245 | exactly what is written, and what the block is in memory afterwards: what it was before if its objects are distinct, and then a sound store stays sound |
| BlockStore.RestoreLinked | chain/storage.go:205-223 | following the ids gives back the original transactions of a linked block if and only if under each id lies the transaction's own value |
| BlockStore.GetBlock | chain/storage.go:262-275 | follows the ids in what is stored; of a sound store it returns the original of every stored block, and nothing for other ids |
| BlockStore.LoadedIff | chain/storage.go:174-275 | a block just stored is loaded as it was if and only if each value is stored last from an object met for the first time |
| BlockStore.StoreAndLoad | chain/storage.go:174-275 | storing and loading gives the block that was stored and leaves it in memory as it was if and only if no object is in the block twice that carries a value other than its own id, so always for distinct objects |
| BlockStore.SharedObject | chain/storage.go:174-201 | a block with a shared object that loses its value in memory and in the database, and one that loses it only in memory |
| TypedData.Dependencies | tdata/tdata.go:113-138 | the walk ends on every type graph; it adds only new, distinct, defined types that the type reaches, and with each everything it refers to |
| TypedData.AllDependencies | tdata/tdata.go:113-138 | started with nothing found it returns, primary first and without repetition, exactly the defined types reached |
| TypedData.SortStrings | tdata/tdata.go:148-149 | a sorted permutation |
| TypedData.LeIsLexicographic | tdata/tdata.go:148-149 | the order of strings: a prefix, or smaller at the first difference |
| TypedData.WriteType | tdata/tdata.go:155-165 | writes the type as EIP-712 asks, but drops the parenthesis of a type without fields |
| TypedData.WrittenIsEncoded | tdata/tdata.go:155-165 | the written text is the EIP-712 encoding if and only if no type in it is without fields |
| TypedData.FormatExample | tdata/tdata.go:155-165 | the format on a type with two fields |
| TypedData.ListingUnique | tdata/tdata.go:145-151 | there is one order with the primary type first and the other reached types sorted, so the encoding is determined by the types |
| TypedData.EncodeType | tdata/tdata.go:144-168 | encodes the primary type and then, sorted, exactly the types it reaches, as EIP-712 asks if and only if each of them has a field; empty for an undefined type |
| FileTree.Reader.Read | tree/tree.go:38-44 | fills the buffer except at the end of the file |
| FileTree.UploadChunk | tree/tree.go:54-76 | afterwards the chunk is stored under its hash, whether it had to be sent or not, and no stored value changes |
| FileTree.ChunksAreFull | tree/tree.go:38-52 | the chunks of a file are the file, and all but the last are full |
| FileTree.UploadChunks | tree/tree.go:38-78 | the hashes are those of the chunks of the file, in order, or the file is smaller than a chunk and still in the buffer |
| FileTree.Upload | tree/tree.go:27-102 | when it succeeds the root stands for the file, or for zeros if the file is empty; a file smaller than a chunk lies in the root, any other as the list of the hashes of its chunks; it fails for chunk size zero |
| FileTree.Download | tree/tree.go:105-149 | writes what the root stands for unless a request fails |
| FileTree.UploadThenDownload | tree/tree.go:27-149 | after a successful upload the download is the file if and only if the file is not empty |

## Left out

- RPC, HTTP, keystore, command line, gossip transport, logging, metrics and configuration: input and output only.
- Signatures, keccak, CB58, hex, JSON and the codec are symbolic or injective functions; signature recovery gives the sender, which is part of the transaction.
- Rules.exec: what each transaction kind writes to the database during block execution is a parameter; the cache and governance modules model the kinds on their own state, without their connection to the block tree. The ledger is connected to it under the assumption that execution moves the funds as the ledger does.
- The values that storing a block keeps apart are not among the writes of the block tree's replay; the block store models them.
- The caches in memory are not a parameter of Rules.exec, although the program reads them while it executes, so the replay results assume that execution depends on the database only.
- Of blocks in flight the cache models take the overlays to sit on the committed database; what a block stages depends on the shared cache and not on its parent.
- Locks and the length-one channel of the pool: the model is sequential and the channel is a flag.
- The LRU cache of accepted blocks: blocks are found as long as they are known, without eviction or loading from disk.
- Load, cost and price are unbounded numbers; only the surplus fee, the required surplus and the elapsed windows wrap at 64 bits.
- A block of height zero above genesis, and heights in general, are not checked by the program; the tree excludes building on a live block of height zero.
- Consensus order is an assumption: blocks are verified on the last accepted block or a live one, children of the last accepted block are accepted, and conflicting blocks are rejected.
- The mempool part of vm.Verified and vm.Rejected is modelled beside the tree, in PoolLoops, not inside Verify and Reject.
- A chunk that is sent is copied; the program hands the request its reused buffer and waits until the request is done.
- SuggestedFee, ParseTypedData, the block timer and the activity cache.
- RewardCurYear with its floating point powers is a parameter; the yield share, the merit term and the foundation's reward are not modelled.
- The number of stakers times the seconds of a year is taken not to wrap.
- Chain creation is taken to lie before every stake and settlement, and times to fit in 64 bits.
- The checks of a claim before it is paid, on its end time, its amount and the days since the last claim: the reward runs include those that pass them and more.
- The global time of the last reward update is a field that no operation writes, as in the program, where its pending copy is never set.
- WithdrawnTx is not in the program's codec; GovernTx, the user types, node details and system parameters only set values.
- The deletion of rewards is never called by the program.
- Reload of actions skips overdue ones and is not modelled.
- Aliasing of the voter and transaction lists that a vote copies, and of the name lists in the type walk: the model copies values.
- EncodeData, the values of typed data and array types, which the walk does not look into.
- The library sort is modelled by insertion.

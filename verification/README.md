# A verified model of the Starcoin node's own logic

This project models seven parts of a Starcoin node in Dafny and proves what they promise, over every
input, every run and every reachable state:

1. the **block chain** over a shared store: verification, execution, saving, connecting, forking, the
   incremental cache of the epoch's uncles, history queries and the event filter
   (`ChainTypes`, `Executor`, `Chain`, `ChainInvariants`, `ChainHistory`, `ChainSteps`, `ChainRuns`,
   `ChainTheorems`, `ChainVerification`, `ChainRecords`, `ChainGrowth`, `ChainLookups`, `EventQuery`, `BlockChain`, `ChainEvents`);
2. **difficulty retargeting** and the target conversions down to the bytes miners see
   (`Difficulty`, `NextWork`, `PowTarget`);
3. the **two-level store**, a cache over a database (`TwoLevelStore`);
4. **gossip** with bounded memory (`Lru`, `Gossip`, `GossipRuns`);
5. the **sync stage machine** over its mailbox (`SyncStage`);
6. **compact block reconstruction** (`CompactBlock`);
7. the **account vault** and the service in front of it (`AccountVault`, `AccountService`).

Objects the node updates in place are classes whose methods are proved equal to functions on values
(`View()`, `Contents()`); the properties are lemmas about those functions and about whole runs of them.

## Main results

- *Uncle cache.* In every world reachable by applying, executing, connecting, forking and opening any
  number of chains over one store, across epoch boundaries, the cached uncles equal what recomputing the
  epoch would give (`UncleCacheIsExact`). That filtering the cache by height is right on a fork holds if and
  only if no uncle was minted again above the fork (`UpToIsExact`), and block verification makes that so.
- *Ancestry.* Leaf n of the block accumulator is the ancestor of the head at height n, and existence, block
  and header queries accept exactly the ids on that path (`LeavesAreAncestors`, `QueriesMatchPath`,
  `ForkIsPrefix`). Total difficulty and the transaction accumulator are the sums over that path.
- *Uncles.* Along every reachable chain uncles lie beside the path, are children of ancestors, and none is
  minted twice, not even in different epochs (`UnclesAreOffPath`, `UnclesAreMintedOnce`).
- *Restart.* Reopening a chain at its head gives exactly the chain that was running, so a head determines its
  chain however it was reached (`ReopenIsSame`, `HeadDeterminesChain`). Headers, blocks, block infos, transaction
  info ids and events, once saved, never change (`RunExtends`).
- *Verification.* A block passes verification on a reachable chain if and only if it may extend the chain's path:
  conditions on the path and its headers alone, for the block and for each of its uncles (`VerifiesIff`).
- *Saved blocks.* A block is saved if and only if its header tells the truth about its execution, and in every
  reachable world what is stored for it is its metadata and the transactions of its body, in this order
  (`SavedIffFaithful`, `StoredBlocksMatch`, `BodiesAreStoredInOrder`).
- *Event filter.* The early-exit loop returns the first `limit` events of the full list or of the reversed
  list, and that list holds exactly the matching emitted events, in order.
- *Retargeting.* Exact bounds, monotonicity up to one unit with the exact case of a decrease, and exactness
  on evenly spaced windows, through saturation, truncation and the clamp.
- *Two levels.* The cache is transparent in every run, whatever it evicts, if and only if the composed keys
  of the cells in use do not collide; those of the node's own column families do not. Then a read returns what was
  last written (`ReadsReturnLastWrite`).
- *Gossip.* Between two hand-overs of the same id in a run, also within one message, at least 10240 other distinct
  ids were made known, and likewise for a connected peer between two broadcasts (`TwoHandOvers`,
  `TwoBroadcasts`). Blocks and transactions are handed over and sent exactly if they are not among the most recent
  10240 (`BlockIsHandedOverIff`, `TxnsAreHandedOverIff`, `BlockIsSentIff`, `TxnsAreSentIff`).
- *Sync.* At most one sync future is ever outstanding and no begin or done event is unexpected.
- *Accounts.* Signing for an account succeeds if and only if it was unlocked with a deadline that has not passed, and
  nothing ended that since (`SignsIff`). In every run of the account service the default account is an account of the vault, and once
  the service has started there always is one (`ServiceHasDefault`).
- *Compact blocks*, *account vault* and *targets*: see the table.

## Where the code does less than one might expect

Each of these is stated as it is in the code, with an input that shows it and the exact condition proved:

- `find_ancestor` looks strictly below the lower head, so its answer is the highest shared block exactly when
  neither head is a block of the other chain (`AncestorIsTopIff`), and never for a chain and its own fork
  (`ForkAncestorIsBelow`).
- A transaction info names the block that saved it last (`InfosNameLastSaver`), so a lookup by version names a
  block of the chain exactly if no block off the chain saved the leaf after the last block on it did
  (`LookupNamesLastSaver`). For the model's verifier, which asks for no proof of work, a sibling block that differs
  only in its nonce takes the infos over, on every chain of every reachable world (`LookupCanLeaveChain`,
  `LookupLeavesEveryChain`); for the node this needs a second nonce that passes proof of work.
- The documentation of the filter's limit promises the last events. In reverse the code returns them
  (`ReverseGivesLast`); going forward it returns the first, which are the last only if the limit cuts off nothing
  or everything, or all events come from one transaction with equal ends (`ForwardGivesLastIff`,
  `ForwardQueryGivesFirst`).
- The upper clamp of the new target lets 2 * avg + 1 through but maps anything above to 2 * avg, so a longer
  time can lower the target by one (`NextTargetMonotone`, `LongerTimeCanLowerTarget`); a product that does not
  fit gives the largest target, outside the clamp.
- A check handled while a sync is being canceled leaves stage Checking behind. Then the published status says
  syncing although no sync is under way, until another sync completes; it is current throughout a run exactly if
  the run never does this (`AlwaysCurrentIff`).
- A forced restart is honoured exactly if no sync was under way or its done event was already in the mailbox;
  otherwise it is lost, in every stage (`ForcedRestartIff`, `ForcedRestartIsLost`, `EarlyRestartIsLost`).
- A check that fails to look up the services it needs, and a done event that is lost, leave the service without a
  sync that could end: a run has such a failure if and only if no continuation of it ever starts a sync again
  (`NeverSyncsAgainIff`, `StuckIff`, `FailedCheckIsStuck`, `LostDoneIsStuck`).
- A transaction broadcast that does not reach a peer is recorded for it all the same, so a peer may be remembered
  to know what it never got, exactly if only such broadcasts recorded it (`RememberedNeverExchangedIff`,
  `SilencedForLater`).
- The account manager's own method to set the default account does not look at the address, so throughout a run of
  the manager the default is an account exactly when it was never set to an unknown address
  (`DefaultAlwaysExistsIff`, `ForeignDefaultIsAccepted`). The service, which looks, never does that.
- Compact block filling uses each fetched transaction once and trusts the prefilled ones (`DeliveredAreUsedIff`,
  `RepeatedIdIsUsedOnce`, `SlotsMatchIff`, `WrongPrefillIsKept`).

## Modelling decisions

- A hash is the constructor of the hashed value, so ids are injective. A Merkle accumulator is the sequence of
  its leaves, its root the hash of that sequence.
- The outputs of the virtual machine, random choices of peers, clocks, salts, peer answers and the outcome of
  database operations are parameters. The virtual machine moves the on-chain epoch by the epoch law: constant
  inside an epoch, and block `end` carries an epoch that starts at `end`; the first one starts at height 0. Only children of the head are
  connected, as the assertion in `connect` demands.
- A division by zero, which would end the computation abruptly, is an outcome of its own.
- Gas sums, block counts, times, targets and nonces are bounded machine integers written out; heights and
  total difficulty are unbounded.
- Each call on the two-level store, and the saving of one block, is atomic.
- The linked hash set and the LRU cache crates move an element to the back when it is inserted again.

## Model

| member | source | states |
|---|---|---|
| `Executor.Executed` | executor/src/block_executor.rs:30-78 | success gives the execution described by `Executes`, failure names the first discarded transaction or the failing virtual machine |
| `Executor.ExecutesIsUnique` | executor/src/block_executor.rs:39-77 | infos, events and state root of an execution are determined: info k carries the root after exactly the write sets 0 to k |
| `Executor.LastWriteDecides` | executor/src/block_executor.rs:56-58 | the last write to a path decides what it reads as, and a deleted path reads as nothing |
| `Executor.UnwrittenStays` | executor/src/block_executor.rs:56-58 | a path that is not written reads as before |
| `Executor.StateAfterIsOneBatch` | executor/src/block_executor.rs:39-62 | the state after some outputs is that after all their writes, in order |
| `Executor.AllWritesConcat` | executor/src/block_executor.rs:39-62 | the writes of two parts are concatenated |
| `Executor.AllWritesOne` | executor/src/block_executor.rs:56-58 | the writes of one output are its write set |
| `Executor.BlockExecute` | executor/src/block_executor.rs:30-78 | the loop over the state database computes that execution and commits exactly its state |
| `Executor.StateDb.ApplyWriteSet` | executor/src/block_executor.rs:56-58 | the write set is applied in order to the working state only |
| `Executor.StateDb.Commit` | executor/src/block_executor.rs:60-62 | the working state becomes the committed one and its root is returned |
| `ChainInvariants.LineageAt` | chain/src/chain.rs:573-575 | entry k of a lineage is the ancestor at height k, and its own lineage is the prefix |
| `ChainInvariants.AccumulatorIsLineage` | chain/src/chain.rs:441-451 | a chain's leaves are the lineage of its head, one per height, and the head lies inside its epoch |
| `ChainInvariants.BlockByNumber` | chain/src/chain.rs:544-550 | every height up to the head is found, and is the stored ancestor there |
| `ChainInvariants.EpochUnclesFromIsMinted` | chain/src/chain.rs:170-204 | recomputing from any height completes what was minted below it |
| `ChainInvariants.EpochUnclesIsMinted` | chain/src/chain.rs:170-204 | recomputation returns the uncles minted on the lineage since the epoch began |
| `ChainInvariants.UpToIsExact` | chain/src/chain.rs:703-714 | filtering the cache by height gives the ancestor's cache if and only if no kept uncle was minted again above |
| `ChainInvariants.NoUncleTwice` | chain/src/verifier/mod.rs:57-131 | a verified lineage never mints an uncle of its epoch twice |
| `ChainSteps.VerifiedContinues` | chain/src/verifier/mod.rs:137-202 | a verified block continues the head's lineage by one height, within the epoch and with fresh uncles |
| `ChainSteps.VerifiedVouches` | chain/src/verifier/mod.rs:57-131 | a verified block is later than its parent, commits to the leaves before it, and its uncles are distinct, few, in its epoch, no ancestors, and verified children of ancestors |
| `ChainSteps.VerifiedExtendsParent` | chain/src/verifier/mod.rs:109-112 | a header verified on a fork at its parent is one higher and later than the parent and commits to its lineage |
| `ChainVerification.VerifiesIff` | chain/src/verifier/mod.rs:28-232 | in every reachable world a block passes verification if and only if it may extend the path: height, parent, time, epoch, gas limit, commitment, body hash, and distinct uncles within the limit that are off the path, not minted in the epoch, and extend it at their parent |
| `ChainSteps.SaveExtends` | chain/src/chain.rs:466-506 | saving keeps every stored header, block, info and event list, also when the block was saved before |
| `ChainSteps.ExecuteKeeps` | chain/src/chain.rs:753-763 | executing a verified block keeps the invariant of every stored block and records the right totals |
| `ChainSteps.ConnectKeeps` | chain/src/chain.rs:875-908 | connecting a stored child succeeds, moves the head and keeps the cache equal to what was minted, across epochs |
| `ChainSteps.OpenKeeps` | chain/src/chain.rs:73-121 | opening at any executed block succeeds with the right accumulators, epoch and uncles |
| `ChainSteps.ForkKeeps` | chain/src/chain.rs:692-720 | a fork at any block of the chain succeeds and its filtered or recomputed cache is right |
| `ChainSteps.FilteredUncles` | chain/src/chain.rs:703-714 | within the epoch the filtered cache is the ancestor's own cache and the epoch is the same |
| `ChainSteps.ApplyKeeps` | chain/src/chain.rs:331-341 | verify, execute, connect: the store only grows, the chain moves onto the block and agrees with the store |
| `ChainSteps.ExistBlockIsOnLineage` | chain/src/chain.rs:617-622 | `exist_block` accepts exactly the lineage of the head |
| `ChainSteps.AncestorIsTopIff` | chain/src/chain.rs:726-747 | for two chains, answer or none, the answer of `find_ancestor` is the highest block they share if and only if neither head is a block of the other chain |
| `ChainSteps.ForkAncestorIsBelow` | chain/src/chain.rs:726-747 | so never for a chain and its fork: the answer is the parent of the block forked at, or none if that is genesis |
| `ChainSteps.SharedBelow` | chain/src/chain.rs:726-747 | two chains that agree at a height agree at every height below |
| `ChainRuns.BeginKeeps` | chain/src/chain.rs:123-147 | a chain begun from a genesis block satisfies the invariants |
| `ChainRuns.NextKeeps` | chain/src/chain.rs:692-908 | every action on any chain keeps the invariants of the store and of all chains |
| `ChainRuns.ReachableInv` | chain/src/chain.rs:61-908 | the invariants hold in every reachable world |
| `ChainRuns.RunExtends` | chain/src/chain.rs:466-506 | along every run, headers, blocks, infos, transaction info ids and events, once saved, stay as they are |
| `ChainTheorems.UncleCacheIsExact` | chain/src/chain.rs:170-204 | in every reachable world the cached uncles of every chain equal the recomputed ones |
| `ChainTheorems.ReopenIsSame` | chain/src/chain.rs:62-121 | reopening any running chain at its head, as a restart does, gives exactly that chain |
| `ChainTheorems.HeadDeterminesChain` | chain/src/chain.rs:692-908 | two chains with the same head are the same chain, however they came there |
| `ChainTheorems.LeavesAreAncestors` | chain/src/chain.rs:441-451 | leaf n is the ancestor at height n for all n up to the head, none lies beyond, and all chains share the genesis |
| `ChainTheorems.TimestampsIncrease` | chain/src/verifier/mod.rs:173-180 | timestamps strictly increase along every reachable chain |
| `ChainTheorems.HeadersCommitToPath` | chain/src/verifier/mod.rs:210-226 | every header of every reachable chain commits to all the blocks before it |
| `ChainTheorems.UnclesAreOffPath` | chain/src/verifier/mod.rs:57-131 | every uncle of a chain is lower than its minting block, one higher and later than its parent, which is a block of the chain, commits to the blocks before it, and is no block of the chain |
| `ChainTheorems.UnclesAreFew` | chain/src/verifier/mod.rs:57-98 | the uncles of a block are distinct and at most what its epoch allows; the first block of an epoch has none |
| `ChainTheorems.UnclesAreMintedOnce` | chain/src/verifier/mod.rs:57-131 | no uncle is minted twice on a chain, within an epoch or across epochs |
| `ChainTheorems.PathIsUnique` | chain/src/chain.rs:573-575 | the path to a head is determined by the head |
| `ChainTheorems.QueriesMatchPath` | chain/src/chain.rs:281-314 | existence, block and header queries accept exactly the ids on the path and return what was asked for |
| `ChainTheorems.ForkIsPrefix` | chain/src/chain.rs:692-720 | a fork succeeds exactly at the chain's blocks, its leaves are a prefix and its cache is exact |
| `ChainTheorems.TotalsFollowPath` | chain/src/chain.rs:412-451 | total difficulty sums the headers from genesis; the transaction accumulator concatenates the blocks' infos |
| `ChainTheorems.TotalsAddUp` | chain/src/chain.rs:412-451 | difficulties of two parts of a path add up, and their histories are concatenated |
| `ChainTheorems.TotalsOfOne` | chain/src/chain.rs:412-451 | for a single block they are its own difficulty and its own info ids |
| `ChainTheorems.VersionLookup` | chain/src/chain.rs:592-600 | version v finds the v-th transaction info of the history, and nothing beyond its end |
| `ChainTheorems.SavedIffFaithful` | chain/src/chain.rs:385-432 | a block is saved if and only if every transaction was kept and state root, gas and accumulator root are its header's |
| `ChainTheorems.SavedTransaction` | chain/src/chain.rs:466-506 | what saving a block stores for its k-th transaction: itself, its id, and the info and events of the k-th output, with the root of the state up to it |
| `ChainTheorems.SavedBody` | chain/src/chain.rs:365-506 | the same for the k-th transaction of the body, which comes after the metadata |
| `ChainTheorems.SavedGas` | chain/src/chain.rs:398-411 | the header's gas is the sum over the outputs, one for each transaction, cut off at the largest 64-bit number |
| `Executor.OutputGasAdds` | chain/src/chain.rs:396-398 | the gas of two parts adds up |
| `Executor.OutputGasOne` | chain/src/chain.rs:396-398 | the gas of one output is its own |
| `ChainTheorems.FirstFailureIsReported` | chain/src/chain.rs:385-451 | the first failing check gives the error |
| `Chain.TransactionsOfBlock` | chain/src/chain.rs:365-382 | exactly the metadata of the block's own header, then the transactions of the body in order; genesis has no metadata |
| `ChainRecords.StoredBlocksMatch` | chain/src/chain.rs:385-506 | in every reachable world, for every saved block: transaction ids and infos align one to one with its metadata and body, under each id that very transaction is stored and under each info id the events its root is of, and gas sum and last state root are the header's |
| `ChainRecords.BodiesAreStoredInOrder` | chain/src/chain.rs:365-506 | in every reachable world the ids, transactions and infos stored for a block are, in this order and no others, those of its metadata, unless it is genesis, and of its body |
| `ChainTheorems.SavedInfosNameTheirBlock` | chain/src/chain.rs:488-493 | right after a save, the infos of the block name it |
| `ChainTheorems.SiblingSharesInfos` | chain/src/chain.rs:352-464 | a sibling differing only in its nonce executes on the same parent with the same transaction info ids |
| `ChainLookups.SiblingVerifies` | chain/src/verifier/mod.rs:28-55 | and it passes verification there, also once the block itself has been saved |
| `ChainLookups.InfosNameLastSaver` | chain/src/chain.rs:466-506 | in every run every stored transaction info names the last block of the run that saved it |
| `ChainLookups.LookupNamesLastSaver` | chain/src/chain.rs:592-600 | so a lookup by version names the last saver of the leaf there, a block of the chain if and only if no block off the chain saved the leaf after the last block on it did |
| `ChainLookups.LookupCanLeaveChain` | chain/src/chain.rs:592-600 | for every accepted block: apply it, fork at its parent, execute a sibling there; then a version of the chain names the sibling, which is not on it |
| `ChainLookups.LookupLeavesEveryChain` | chain/src/chain.rs:592-600 | from every reachable world, for every chain, such a world is reached |
| `ChainTheorems.BeginsIffFaithful` | chain/src/chain.rs:123-147 | a run begins with exactly the genesis blocks faithful to their header |
| `ChainTheorems.EveryFirstEpochBegins` | chain/src/chain.rs:123-147 | every first epoch starting at height 0 begins some run, so the run theorems are not empty |
| `ChainGrowth.EveryChainGrows` | chain/src/chain.rs:331-341 | in every reachable world every chain accepts some block, also at the end of an epoch |
| `EventQuery.MatchesKeepsExactly` | types/src/filter.rs:41-50 | filtering keeps exactly the matching events |
| `EventQuery.MatchesArePicked` | types/src/filter.rs:41-50 | filtering picks the events at exactly the matching positions, each once and in order |
| `EventQuery.AllEventsHas` | chain/src/chain.rs:767-867 | an event is reported exactly when a transaction of the chain emitted it and it matches, with its original index |
| `EventQuery.AllEventsAreOrdered` | chain/src/chain.rs:782-860 | events are reported in the order of their blocks and transactions |
| `EventQuery.ReverseGivesLast` | types/src/filter.rs:19-25 | a query in reverse returns exactly the last `limit` events, reversed |
| `EventQuery.ForwardGivesLastIff` | types/src/filter.rs:19-25 | a forward query returns the last `limit` events if and only if nothing is cut off, nothing is let through, or all events come from one transaction whose first ones equal its last |
| `EventQuery.ForwardMissesLast` | types/src/filter.rs:19-25 | so never if events of several transactions match and the limit cuts some off and lets some through |
| `ChainEvents.ForwardQueryGivesFirst` | chain/src/chain.rs:862-866 | from every reachable world, for every chain, a world is reached in which a forward query on it does not return the last events |
| `BlockChains.Storage.Save` | chain/src/chain.rs:466-506 | the store afterwards is the one the save function describes |
| `BlockChains.Storage.SaveContractEvents` | chain/src/chain.rs:484-486 | the loop stores every event list under its info id |
| `BlockChains.BlockChain.RecomputeUncles` | chain/src/chain.rs:170-204 | the loop returns the recomputed uncles or the missing block |
| `BlockChains.BlockChain.NewWithUncles` | chain/src/chain.rs:73-121 | opening gives the described chain or the same error |
| `BlockChains.BlockChain.ForkAt` | chain/src/chain.rs:692-720 | succeeds exactly at the chain's blocks with a valid chain whose leaves are a prefix |
| `BlockChains.BlockChain.Connect` | chain/src/chain.rs:875-908 | head, accumulators, state, epoch and uncles after connecting, also when reloading the epoch fails |
| `BlockChains.BlockChain.ExecuteBlockAndSave` | chain/src/chain.rs:352-464 | saves what the specification saves; on any failed check the store is unchanged |
| `BlockChains.BlockChain.BlockGas` | chain/src/chain.rs:396-398 | the fold is the saturating gas sum |
| `BlockChains.BlockChain.Apply` | chain/src/chain.rs:331-341 | keeps the chain valid; succeeds exactly if the block verifies and executes; failure changes neither chain nor store |
| `BlockChains.BlockChain.FindAncestor` | chain/src/chain.rs:726-747 | the largest height below both heads where ids agree, agreeing below and differing above; none exactly if the lower head is genesis |
| `BlockChains.BlockChain.GetBlocksByNumber` | chain/src/chain.rs:552-565 | the blocks ending at the number, newest first, and exactly when they all exist |
| `BlockChains.BlockChain.FilterEvents` | chain/src/chain.rs:767-867 | always succeeds with the limited, directed list of all matching events |
| `BlockChains.BlockChain.CollectBlocks` | chain/src/chain.rs:777-860 | the loop terminates having collected everything, or a prefix of it that reaches the limit |
| `BlockChains.BlockChain.FilterBlock` | chain/src/chain.rs:791-844 | one block's transactions, in either direction, with the early exit |
| `BlockChains.VisitAll` | chain/src/chain.rs:799-837 | visiting chunk by chunk backwards, each reversed, is the reversal of the whole list |
| `BlockChains.LimitedVisit` | chain/src/chain.rs:839-866 | cutting off early does not change the first `limit` events |
| `Difficulty.GetNextTarget` | consensus/src/difficulty.rs:57-125 | the new target, an error exactly on an empty window, and a division by zero exactly for two or more blocks and a plan of zero |
| `Difficulty.SumTargets` | consensus/src/difficulty.rs:66-71 | the checked 512-bit sum never overflows and is the total |
| `Difficulty.WeighTimes` | consensus/src/difficulty.rs:82-93 | the saturating weighted time and weight |
| `Difficulty.Retarget` | consensus/src/difficulty.rs:103-119 | the clamped product stays a 256-bit number, doubling included |
| `Difficulty.WeightIsTriangle` | consensus/src/difficulty.rs:84-93 | the weight of n blocks is n(n - 1)/2 until it saturates |
| `Difficulty.TriangleIsProduct` | consensus/src/difficulty.rs:84-93 | twice the sum of 1 to n - 1 is n(n - 1) |
| `Difficulty.AvgTargetIsBetween` | consensus/src/difficulty.rs:66-75 | the average target lies between any bounds on the window's targets |
| `Difficulty.AvgTargetIsQuotient` | consensus/src/difficulty.rs:66-75 | the average is the sum of the targets divided by their number, rounded down |
| `Difficulty.TotalTargetAdds` | consensus/src/difficulty.rs:66-71 | the sums of two parts of a window add up |
| `Difficulty.TotalTargetOne` | consensus/src/difficulty.rs:66-71 | the sum of one block is its target |
| `Difficulty.RawTimeIsQuotient` | consensus/src/difficulty.rs:77-102 | the average time is the summed distances from the newest block divided by 1 + ... + (n - 1), both cut off, rounded down; never 0 |
| `Difficulty.DistancesAdd` | consensus/src/difficulty.rs:84-93 | the distances of two parts add up |
| `Difficulty.DistanceOfOne` | consensus/src/difficulty.rs:84-93 | the distance of one block is how much earlier it is, or 0 |
| `Difficulty.ProductIsNear` | consensus/src/difficulty.rs:103-106 | plan times the product is at most avg * time, and more than avg * time - plan * time |
| `Difficulty.NextTargetIsClamped` | consensus/src/difficulty.rs:103-119 | the new target is the product inside the clamp, half or twice the average outside, the maximum on overflow |
| `Difficulty.NextTargetBounds` | consensus/src/difficulty.rs:103-119 | from floor(avg/2) to 2 * avg + 1 if the product fits, else the maximum and only for slow blocks |
| `Difficulty.NextTargetIsPositive` | consensus/src/difficulty.rs:103-119 | the new target is 0 if and only if avg is 0, or 1 with a plan above 1 |
| `Difficulty.NextTargetMonotone` | consensus/src/difficulty.rs:103-119 | a longer time lowers the target by at most one, and exactly when the product passes 2 * avg + 1 |
| `Difficulty.LongerTimeCanLowerTarget` | consensus/src/difficulty.rs:103-119 | an input on which it does |
| `Difficulty.AvgTimeMonotone` | consensus/src/difficulty.rs:77-102 | a later head or earlier ancestors never shorten the average time |
| `Difficulty.RetargetMonotone` | consensus/src/difficulty.rs:77-119 | nor do they lower the new target by more than one |
| `Difficulty.TwoBlocksAgree` | consensus/src/difficulty.rs:77-98 | the two-block branch computes what the loop would |
| `Difficulty.UniformTime` | consensus/src/difficulty.rs:77-98 | on an evenly spaced window without saturation the estimate is the spacing |
| `Difficulty.OnPlan` | consensus/src/difficulty.rs:77-119 | blocks on plan keep the target within (avg - plan, avg] |
| `NextWork.Window` | consensus/src/difficulty.rs:19-40 | the newest min(window, height + 1) headers in descending order; an overflow error at the largest height, a division by zero if one of them has no difficulty |
| `NextWork.WindowAt` | consensus/src/difficulty.rs:27-40 | each entry has the time of its header and the target of its difficulty |
| `NextWork.GetNextWorkRequired` | consensus/src/difficulty.rs:13-55 | the next target of any valid chain, with the cases of low heads, short windows, the largest height, and zero difficulty or plan |
| `PowTarget.GaloisConnection` | consensus/src/lib.rs:33-39 | D <= M/T if and only if T <= M/D |
| `PowTarget.ReachableTargetRoundTrip` | consensus/src/lib.rs:33-39 | target to difficulty to target is the identity on targets that came from a difficulty |
| `PowTarget.DifficultyRoundTripIff` | consensus/src/lib.rs:33-39 | the other round trip is exact if and only if the next difficulty has a smaller target |
| `PowTarget.SmallDifficultyRoundTrip` | consensus/src/lib.rs:33-39 | it is exact for every difficulty below 2^128 |
| `PowTarget.LargeDifficultyRoundTripFails` | consensus/src/lib.rs:33-39 | and 2^128 itself comes back as 2^128 + 1 |
| `PowTarget.TopBits` | stratum/src/lib.rs:6-13 | the 64-bit quotient is the top 64 bits of the consensus target |
| `PowTarget.DifficultyToTargetHex` | stratum/src/lib.rs:6-13 | the string's bytes, read little-endian, are those top 64 bits |
| `PowTarget.ReverseInPlace` | stratum/src/lib.rs:6-13 | the bytes are reversed in place |
| `PowTarget.DecodeEncode` | stratum/src/lib.rs:6-13 | decoding undoes hex encoding |
| `PowTarget.DecodeIsNumber` | stratum/src/lib.rs:6-13 | an even number of hex digits decodes to the bytes of the number they denote |
| `PowTarget.DecodesIff` | stratum/src/lib.rs:6-13 | decoding succeeds exactly for an even number of hex digits |
| `PowTarget.NonceOfShare` | stratum/src/rpc.rs:51-65 | the nonce has the bytes of the parsed number in opposite order; parse errors are passed on |
| `PowTarget.ParseOfHex` | stratum/src/rpc.rs:51-65 | hex digits parse exactly if the number fits 32 bits, and to that number |
| `PowTarget.DigitsParseIff` | stratum/src/rpc.rs:51-65 | digits parse exactly if they are hex digits of a number that fits, else the first cause is reported |
| `PowTarget.ParsesIff` | stratum/src/rpc.rs:51-65 | a share parses exactly if it has such digits after an optional plus sign |
| `PowTarget.SetHeaderNonce` | consensus/src/lib.rs:41-50 | a 76-byte blob gets extra and nonce bytes at their offsets and keeps the rest; other lengths give nothing |
| `PowTarget.SubmitShare` | stratum/src/rpc.rs:51-65 | eight submitted hex digits are byte for byte what lands at offsets 39 to 42 |
| `TwoLevelStore.StorageInstance.Get` | storage/src/storage.rs:115-142 | answers from the cache, else from the database, filling the cache also with absence |
| `TwoLevelStore.StorageInstance.Put` | storage/src/storage.rs:143-152 | writes the database, then the cache; a failed database write changes neither |
| `TwoLevelStore.StorageInstance.ContainsKey` | storage/src/storage.rs:153-168 | a negative entry answers no; a miss asks the database without filling |
| `TwoLevelStore.StorageInstance.Remove` | storage/src/storage.rs:169-181 | removes from both levels |
| `TwoLevelStore.StorageInstance.WriteBatch` | storage/src/storage.rs:182-193 | applies the rows in order to both levels |
| `TwoLevelStore.BatchLastWriteWins` | storage/src/cache_storage/mod.rs:50-62 | after a batch every key has what its last row says |
| `TwoLevelStore.StepAgrees` | storage/src/storage.rs:114-193 | every operation keeps cached entries equal to the database and answers as the database would |
| `TwoLevelStore.RunAgrees` | storage/src/storage.rs:114-193 | so does every run with arbitrary evictions |
| `TwoLevelStore.TransparentIffInjective` | storage/src/cache_storage/mod.rs:136-142 | the cache is transparent in all runs if and only if composed keys of used cells do not collide |
| `TwoLevelStore.ReadsReturnLastWrite` | storage/src/storage.rs:114-192 | after every run a read returns what the last successful write to the cell wrote |
| `TwoLevelStore.ReadsWithoutDatabaseIff` | storage/src/storage.rs:114-192 | while the database fails a read is answered exactly if a successful read or write of its key came before and no removal, deletion or eviction since |
| `TwoLevelStore.LengthsApartAreInjective` | storage/src/cache_storage/mod.rs:136-142 | families whose names and possible key lengths are apart do not collide |
| `TwoLevelStore.NamesAloneCollide` | storage/src/cache_storage/mod.rs:136-142 | without such a rule cells of two of the node's families do |
| `TwoLevelStore.NodeLengthsAreApart` | storage/src/lib.rs:52-67 | the key lengths of the node's column families are apart: 32 bytes, or the two names in `chain_info` |
| `TwoLevelStore.NodeStoreIsTransparent` | storage/src/lib.rs:52-67 | so the cache over them is transparent |
| `TwoLevelStore.PutAllLastWins` | storage/src/storage.rs:401-403 | `put_all` leaves every key with its last value |
| `TwoLevelStore.DeleteAllRemoves` | storage/src/storage.rs:405-407 | `delete_all` removes exactly the given keys |
| `TwoLevelStore.U64KeyRoundTrip` | storage/src/storage.rs:414-423 | integer keys decode to themselves |
| `TwoLevelStore.U64KeysAreDistinct` | storage/src/storage.rs:414-423 | distinct integers have distinct keys |
| `Lru.LastOrderIsExact` | network-p2p/src/utils.rs:37-60 | the order of last insertion lists every inserted element once |
| `Lru.LruHashSet.Insert` | network-p2p/src/utils.rs:51-60 | the items and the answer after one insert |
| `Lru.InsertsKeepRecent` | network-p2p/src/utils.rs:37-60 | after any inserts the set is the limit - 1 most recent distinct elements in order of last insertion |
| `Lru.InsertReportsForgotten` | network-p2p/src/utils.rs:51-60 | insert returns true exactly if the element is not among them |
| `Lru.RecentStep` | network/src/service.rs:272-289 | one more record moves the element to the back and drops the oldest of a full memory |
| `Lru.RememberedIff` | network/src/service.rs:272-289 | an element is remembered exactly while fewer than n distinct elements came after it |
| `Lru.ForgettingTakesOthers` | network/src/service.rs:272-289 | it is forgotten only after n other distinct elements |
| `GossipRuns.OwnItems` | network/src/service.rs:352-706 | at every step of every run the node remembers the 10240 most recent ids it handed over, sent or broadcast |
| `GossipRuns.PeerItems` | network/src/service.rs:352-706 | and of every peer the most recent ids recorded since it connected |
| `GossipRuns.HandOversAreFar` | network/src/service.rs:352-470 | if an id that a received message hands over was made known at any earlier position of the run, also by the same message, at least 10240 other distinct ids were made known after that position and before the hand-over |
| `GossipRuns.TwoHandOvers` | network/src/service.rs:352-470 | so between two hand-overs of the same id, given by step and position, 10240 other distinct ids were made known |
| `GossipRuns.BroadcastsAreFar` | network/src/service.rs:540-706 | the same for what is broadcast to a peer and what was recorded for it at any earlier position since it connected |
| `GossipRuns.TwoBroadcasts` | network/src/service.rs:540-706 | so between two broadcasts of the same id to a peer that stays connected, 10240 other distinct ids were recorded for it |
| `GossipRuns.NeverExchangedIff` | network/src/service.rs:640-690 | over any part of a run an id is never exchanged with a peer exactly if every step that recorded it for the peer was a transaction broadcast that did not reach the peer |
| `GossipRuns.RememberedNeverExchangedIff` | network/src/service.rs:640-690 | what a peer is remembered to know was never exchanged with it since it connected exactly if such broadcasts recorded it and nothing else did |
| `GossipRuns.SilencedForLater` | network/src/service.rs:640-690 | in every state, a peer without the announcement protocol that is not selected gets nothing of a transaction it is not remembered to know, neither from this broadcast nor from the next one of it |
| `GossipRuns.UnknownIsHandedOver` | network/src/service.rs:352-470 | a received transaction not among the most recent is always handed over |
| `GossipRuns.BlockIsHandedOverIff` | network/src/service.rs:395-420 | a block message of a connected peer is handed over, as it is, exactly if the block is not among the most recent |
| `GossipRuns.TxnsAreHandedOverIff` | network/src/service.rs:360-470 | a message with transactions is swallowed exactly if all are among the most recent, is handed over as the same kind of message, and whole if none is |
| `GossipRuns.StrangerIsIgnored` | network/src/service.rs:352-470 | a message of an unconnected peer changes nothing |
| `GossipRuns.UnknownIsSent` | network/src/service.rs:616-701 | a broadcast transaction not among the most recent of a reached peer is always sent to it |
| `GossipRuns.BlockIsSentIff` | network/src/service.rs:548-615 | a broadcast block is sent to a connected peer exactly if the peer is selected, supports blocks and the block is not among its most recent |
| `GossipRuns.TxnsAreSentIff` | network/src/service.rs:616-701 | broadcast transactions are sent, in full or announced, exactly if one is not among the peer's most recent and the broadcast reaches it |
| `GossipRuns.ProtocolsAreOfHandshake` | network/src/service.rs:472-520 | a peer's protocols are those of the handshake that connected it |
| `GossipRuns.ConnectedIff` | network/src/service.rs:472-530 | a peer is connected exactly if it shook hands and did not disconnect since |
| `GossipRuns.StatusIsLastClaim` | network/src/service.rs:395-500 | at every step of every run a peer's status is the last one claimed since it connected, where a later handshake counts only with more difficulty and a block message always |
| `Gossip.Inner.HandleNetworkMessage` | network/src/service.rs:352-470 | new state and hand-over of every kind of message, full, partly or wholly known; an error for bytes that do not decode, nothing for unknown peers |
| `Gossip.Inner.SendPeerMessage` | network/src/service.rs:506-538 | records in the node's own memory exactly when the peer supports the protocol |
| `Gossip.Inner.BroadcastTransactions` | network/src/service.rs:616-701 | every peer's memory and what is sent to it, in full or announced |
| `Gossip.Inner.BroadcastBlock` | network/src/service.rs:549-615 | the block goes to the selected peers that do not know it, and only their memories change |
| `Gossip.Inner.OnPeerConnected` | network/src/service.rs:472-500 | a new peer starts with empty memories; a known one keeps its own, and its status unless the new one has more difficulty |
| `Gossip.Inner.OnPeerDisconnected` | network/src/service.rs:502-504 | the peer and its memories go |
| `SyncStage.SyncService.CheckAndStartSync` | sync/src/sync.rs:83-115 | starts only from NotStart or Done, and leaves Checking in every stage but Synchronizing |
| `SyncStage.SyncService.CancelTask` | sync/src/sync.rs:285-293 | only a running sync is canceled |
| `SyncStage.SyncService.OnBegin` | sync/src/sync.rs:374-431 | stage, status and whether its sync task is canceled after a begin event |
| `SyncStage.SyncService.OnDone` | sync/src/sync.rs:476-504 | stage, status and whether another check follows a done event |
| `SyncStage.SyncService.OnAncestor` | sync/src/sync.rs:322-333 | the ancestor is recorded while synchronizing |
| `SyncStage.RunKeeps` | sync/src/sync.rs:83-504 | the invariant on stage, mailbox and futures holds in every run |
| `SyncStage.OwnEventsAreExpected` | sync/src/sync.rs:374-504 | a begin event meets Checking, a done event meets the one finished future and a stage that expects it |
| `SyncStage.AtMostOneSync` | sync/src/sync.rs:90-504 | at most one future is outstanding and the unexpected branches are unreachable |
| `SyncStage.CanceledIff` | sync/src/sync.rs:285-431 | in every run exactly those syncs are canceled whose begin event told of a target not ahead, or that were running when a cancellation was handled |
| `SyncStage.ChecksAgainIff` | sync/src/sync.rs:335-504 | which events ask for another check |
| `SyncStage.StatusIsLastReport` | sync/src/sync.rs:374-504 | in every run the status is the last one reported |
| `SyncStage.AncestorIsLastReported` | sync/src/sync.rs:322-333 | the ancestor recorded for a running sync is the last one reported since it began |
| `SyncStage.StatusStaysCurrentIff` | sync/src/sync.rs:90-115 | a step keeps the status current exactly if it is not a check while canceling |
| `SyncStage.AlwaysCurrentIff` | sync/src/sync.rs:90-115 | the status is current throughout a run if and only if the run never does that |
| `SyncStage.ForcedRestartIff` | sync/src/sync.rs:582-599 | when a forced restart is handled, in whatever stage and whatever else happens, a new sync is spawned by the time its check is handled if and only if none was under way or its done event was already in the mailbox |
| `SyncStage.ForcedRestartIsLost` | sync/src/sync.rs:582-599 | a schedule on which it is lost, ending with nothing running and the status at syncing |
| `SyncStage.ForcedRestartIsReachable` | sync/src/sync.rs:582-599 | a run that gets there |
| `SyncStage.EarlyRestartIsLost` | sync/src/sync.rs:582-599 | a run in which a restart before the begin event is lost |
| `SyncStage.StuckIff` | sync/src/sync.rs:90-120 | no future is left that could report a sync done, outside NotStart and Done, exactly if some check failed to look up its services or some done event was lost |
| `SyncStage.StuckForGood` | sync/src/sync.rs:90-274 | and then no sync is ever started again, whatever happens |
| `SyncStage.NotStuckCanGoOn` | sync/src/sync.rs:90-274 | otherwise some continuation spawns another sync |
| `SyncStage.NeverSyncsAgainIff` | sync/src/sync.rs:90-274 | so a run has such a failure if and only if no continuation of it ever spawns another sync |
| `SyncStage.FailedCheckIsStuck` | sync/src/sync.rs:116-120 | a run stuck by a failed check |
| `SyncStage.LostDoneIsStuck` | sync/src/sync.rs:269-271 | a run stuck by a lost done event in which no check failed |
| `CompactBlock.GetTxns` | sync/src/verified_rpc_client.rs:201-242 | missing ids and verified transactions, or the error of selecting a peer, of the request, of the count or of an id |
| `CompactBlock.MissingArePicked` | sync/src/verified_rpc_client.rs:226-229 | the ids reported missing are the asked ones without an answer, in order |
| `Basics.PresentArePicked` | sync/src/verified_rpc_client.rs:217-231 | the transactions found are the answers that are there, in order; likewise the filled slots of a block |
| `CompactBlock.FetchedIsDelivered` | sync/src/verified_rpc_client.rs:201-242 | the fetched map has exactly the delivered ids, each with a transaction of that id |
| `CompactBlock.FillFromPool` | block-relayer/src/block_relayer.rs:88-103 | slots filled from the pool and the set of ids not in it |
| `CompactBlock.FillPrefilled` | block-relayer/src/block_relayer.rs:105-114 | prefilled transactions inside the block fill their slots and leave the missing set |
| `CompactBlock.FillFetched` | block-relayer/src/block_relayer.rs:137-150 | empty slots take fetched transactions, each at most once; a non-user transaction is an error |
| `CompactBlock.PrepareBlock` | block-relayer/src/block_relayer.rs:82-119 | the slots before the request, and the ids asked for without repetition |
| `CompactBlock.FinishBlock` | block-relayer/src/block_relayer.rs:120-151 | the transactions of the block, or the error, from the peer's response on |
| `CompactBlock.WantedIff` | block-relayer/src/block_relayer.rs:94-119 | the peer is asked for exactly the short ids found neither in the pool nor prefilled |
| `CompactBlock.FilledAt` | block-relayer/src/block_relayer.rs:137-150 | what ends up in each slot: an empty one is filled exactly if it is the first for its id and the peer delivered it |
| `CompactBlock.FilledWithLast` | block-relayer/src/block_relayer.rs:137-150 | and what fills it is the last transaction delivered for its id |
| `CompactBlock.FilledIff` | block-relayer/src/block_relayer.rs:120-151 | filling succeeds exactly if nothing was asked for, or a peer answered once for each id, with the ids asked for and user transactions where needed |
| `CompactBlock.FailsBecause` | sync/src/verified_rpc_client.rs:201-242 | otherwise the error is the first cause |
| `CompactBlock.SlotsMatchIff` | block-relayer/src/block_relayer.rs:105-114 | every transaction has its slot's id if and only if the prefilled ones that stay do |
| `CompactBlock.WrongPrefillIsKept` | block-relayer/src/block_relayer.rs:105-114 | an input on which they do not |
| `CompactBlock.DeliveredAreUsedIff` | block-relayer/src/block_relayer.rs:137-150 | all slots of delivered ids are filled if and only if no two empty slots want the same delivered id |
| `CompactBlock.RepeatedIdIsUsedOnce` | block-relayer/src/block_relayer.rs:137-150 | an input on which one stays empty |
| `CompactBlock.BlockHasShortIds` | block-relayer/src/block_relayer.rs:82-156 | with distinct short ids, matching prefill, a right pool and a response that fills the slots: the block has the short ids in order, omitting exactly those the peer reported missing |
| `AccountVault.AccountManager.SaveAccount` | account/src/account_manager.rs:111-128 | keys, address list and first default, or an error if the account exists |
| `AccountVault.AccountManager.CreateAccount` | account/src/account_manager.rs:73-78 | the new key is saved under the address derived from it |
| `AccountVault.AccountManager.ImportAccount` | account/src/account_manager.rs:100-109 | the given key is saved under the given address; a malformed key is an error |
| `AccountVault.AccountManager.UnlockAccount` | account/src/account_manager.rs:80-93 | the password is cached until its deadline exactly if it loads the account |
| `AccountVault.AccountManager.LockAccount` | account/src/account_manager.rs:95-98 | the cached password goes |
| `AccountVault.AccountManager.CachedPassword` | account/src/account_manager.rs:43-55 | a live password is returned and kept, an expired one dropped |
| `AccountVault.AccountManager.ChangeAccountPassword` | account/src/account_manager.rs:228-256 | the key is encrypted anew and the account locked, or the vault is as it was |
| `AccountVault.AccountManager.DeleteAccount` | account/src/account_manager.rs:260-269 | the account is destroyed exactly if the password loads it; a missing account is no error |
| `AccountVault.AccountManager.DestroyAccount` | account/src/account_storage.rs:333-344 | default, address, keys, settings and tokens of the account are removed |
| `AccountVault.AccountManager.AddAddress` | account/src/account_storage.rs:255-266 | the address is appended unless listed |
| `AccountVault.AccountManager.RemoveAddress` | account/src/account_storage.rs:268-279 | the loop retains the others in order |
| `AccountVault.AccountManager.SetDefaultAddress` | account/src/account_storage.rs:235-247 | the default is replaced or removed |
| `AccountVault.AccountManager.UpdateKey` | account/src/account_storage.rs:309-322 | both key stores are written |
| `AccountVault.RetainedIsExact` | account/src/account_storage.rs:268-279 | removing an address removes it and nothing else |
| `AccountVault.RetainedArePicked` | account/src/account_storage.rs:268-279 | and keeps the order of the others |
| `AccountVault.WithKeyLoads` | account/src/account.rs:41-67 | a saved key loads with its password, other accounts load as before |
| `AccountVault.SaveKeeps` | account/src/account_manager.rs:111-128 | saving keeps the invariant and the key loads back |
| `AccountVault.SaveIff` | account/src/account_manager.rs:111-128 | saving fails exactly for an address that is an account, and otherwise appends it |
| `AccountVault.ChangePasswordKeepsKey` | account/src/account_manager.rs:228-256 | succeeds exactly while unlocked; the new password loads the same private key and nothing else changes |
| `AccountVault.DeleteKeeps` | account/src/account_manager.rs:260-269 | a successful delete leaves no key and no address |
| `AccountVault.DeleteIff` | account/src/account_manager.rs:260-269 | deleting fails with a wrong password, does nothing without an account, and otherwise leaves nothing of it and all of the others |
| `AccountVault.RunKeeps` | account/src/account_manager.rs:36-269 | in every run the address list has no duplicates and equals the keys of both key stores, and every cached password loads |
| `AccountVault.UnlockedCanSign` | account/src/account_manager.rs:188-202 | in every run signing succeeds exactly while the account is unlocked |
| `AccountVault.UnlockIff` | account/src/account_manager.rs:80-93 | unlocking succeeds exactly if the password loads the account, and then the password is remembered until the deadline |
| `AccountVault.LoadsAnAccount` | account/src/account_manager.rs:86-87 | loading reports a missing account exactly if there is no key for the address |
| `AccountVault.SignsIff` | account/src/account_manager.rs:43-269 | over every run: signing gives the key of the last unlocking if its deadline has not passed and nothing ended it, and reports a locked account otherwise |
| `AccountVault.LiveUnlockIff` | account/src/account_manager.rs:80-98 | that unlocking is the step after which no other unlocked the account again, locked it, changed its password, deleted it or used it too late |
| `AccountVault.DefaultStaysIff` | account/src/account_manager.rs:222-226 | an action keeps the default an account exactly if it does not set it to an unknown address |
| `AccountVault.DefaultAlwaysExistsIff` | account/src/account_manager.rs:222-226 | the same over whole runs |
| `AccountVault.ForeignDefaultIsAccepted` | account/src/account_manager.rs:222-226 | a run of the manager whose first action breaks it |
| `AccountService.Service.SetDefault` | account/service/src/service.rs:99-107 | sets the default only if the address is an account, and answers with that account |
| `AccountService.Service.Start` | account/service/src/service.rs:46-74 | creates a default account if there is none, then imports the association account if it is not there |
| `AccountService.ServiceHasDefault` | account/service/src/service.rs:46-170 | in every run of the service the default, if any, is an account, after a start there always is one, and the service can always start |
| `AccountService.StartHasAssociation` | account/service/src/service.rs:58-73 | after a start the association account is an account |
| `AccountService.ServedIsManaged` | account/service/src/service.rs:87-162 | every other request does to the vault what the manager's action does |
| `AccountService.DefaultIsLastChoice` | account/service/src/service.rs:46-162 | in every run the default is the account last set, or the first one |

## Left out

- Proof of work and the bound on timestamps ahead of the clock: the model's verifier accepts more blocks and uncles than the node's.
- ChainLookups.SiblingVerifies: the sibling's nonce need not pass proof of work, because the model has none.
- ChainLookups.LookupCanLeaveChain: the sibling's nonce need not pass proof of work, because the model has none.
- ChainLookups.LookupLeavesEveryChain: neither nonce needs to pass proof of work, because the model has none.
- ChainGrowth.EveryChainGrows: the accepted block need not pass proof of work nor the bound on the clock.
- ChainVerification.VerifiesIff: neither proof of work nor the bound on the clock is among the conditions, because the model has none.
- Total difficulty beyond 256 bits and heights at the largest 64-bit number.
- BlockChains.BlockChain.FilterEvents: the transaction index is not cut to 32 bits.
- Failures of the block store and of the state database, and partial saves of one block.
- The Move virtual machine, the state tree and the nodes of Merkle accumulators.
- Looking up a transaction info by transaction hash, block templates, epoch and time queries.
- `get_len` and `keys` of the two-level store, which report the cache only.
- Interleaving of two calls on the two-level store between the database read and the cache fill.
- How peers are selected at random, and which bytes decode to a network message.
- Cancellation inside a sync task, restarts of the sync service and its progress reports.
- Account settings and accepted tokens except their deletion, and failures of the account stores.
- Configuration, metrics, logging, actor wiring, RPC servers and command line: input, output and plumbing.

# A verified model of the Zephyria node

Zephyria is a blockchain node. A block's transactions are split into waves that run in parallel on
overlay states; validators stake through a native contract and are elected leaders in proportion
to their stakes; state and chain indices share one key-value database, written by a pipeline of
mining rounds and imports that pass one lock around. This project models that core in Dafny and
proves what it keeps: over every interleaving, every history and every reachable state.

## Reading guide

| file | what it holds |
|---|---|
| `Base.dfy` | byte strings, big-endian encodings, transactions, sums |
| `Scheduler.dfy`, `Order.dfy` | the wave scheduler as first fit; exactly when waves keep block order |
| `Wave.dfy`, `Progress.dfy` | one wave as a concurrent machine: its invariants and its termination |
| `Turns.dfy`, `Races.dfy` | interleavings made to order; exactly when a wave is deterministic |
| `Messages.dfy`, `Fees.dfy`, `Coinbase.dfy` | messages as execution, coinbase credit and system processing; what the coinbase receives; what holds despite the race for it |
| `Traces.dfy`, `BlockExec.dfy`, `BlockProgress.dfy` | reordering of transactions; a whole block against sequential runs; complete runs exist |
| `Receipts.dfy`, `BlockReceipts.dfy`, `SharedHashes.dfy` | gas, fees and receipts of a block; exactly when the header's gas is the counter |
| `Database.dfy`, `StateStore.dfy`, `Accounts.dfy` | key layout, overlay stack, dirty set, commit and reload, account fields |
| `Registry.dfy`, `StakingHistory.dfy`, `SystemContracts.dfy` | the staking contract as arithmetic, over histories, and as it runs on a state |
| `Processing.dfy` | what every message leaves in every balance and word, refusals included |
| `Scripts.dfy`, `StakingProgram.dfy`, `StakingMessages.dfy` | staking messages as transaction programs, from nonce check to registry |
| `StakingBlocks.dfy` | the registry under parallel execution, over every run of a node |
| `Election.dfy`, `Consensus.dfy`, `ValidatorSync.dfy` | leader election, the engine with its cache, and the sync from contract to engine |
| `Chain.dfy`, `Stops.dfy`, `Blockchain.dfy` | chain indices, what a stop in mid-addition leaves, the blockchain object |
| `Pipeline.dfy`, `PipelineChain.dfy`, `PipelineCode.dfy` | the commit pipeline, its chain, and contract code in it |
| `BlockWrites.dfy`, `Agreement.dfy` | block execution as pipeline writes; what nodes agree on |
| `BaseFee.dfy`, `RateLimit.dfy` | base fee arithmetic, the peer message counter |

Conventions.

- An interleaving is a list of choices saying who moves next. A choice that is not enabled leaves
  the state alone, so a statement about every list is a statement about every interleaving.
- A transaction program is any deterministic function from the values observed so far to the next
  read, write or halt.
- The *frame hypothesis* says that a program uses the keys owned by its sender and recipient
  freely, and the keys of a set `shared` only *blindly*: what it observes under a shared key
  influences nothing but what it writes back under shared keys. Which address owns a key is a
  parameter. With `shared` empty it says that a program keeps to its footprint, and equality
  outside the shared keys is equality.
- A *message* is its execution, then its fee credited to the coinbase, then the processing of system
  contracts. The credit touches a key outside most footprints, but it is blind (`MessageFits`), so
  the theorems apply to messages with the coinbase balance as the shared key.
  `StakingMessageFits` shows that messages to the staking contract meet the hypothesis when
  registry slots count as the staking contract's own.
- Gas, fees, receipts and the absence of deadlock need no hypothesis on programs, unless a row says
  "under the frame hypothesis".
- A state key, in the code a Keccak hash or its first 31 bytes and a suffix, is modelled by the
  hash's preimage and the suffix, so distinct fields have distinct keys by assumption. A block's
  hash is an injective function of its header fields and of the state its execution left, as the
  code hashes the header afresh with the new root; the transactions are not in it. Transaction
  hashes are plain values, and the JSON codecs are taken to round-trip.
- The Verkle tree is a finite map in which inserting overwrites; database batches are atomic and
  succeed.

Where the code falls short of what one might expect, the model follows the code and states the
exact condition: `OrderKeptExactly` and `BlockOrderExactly` (waves keep block order), `DeterministicExactly`
(a wave ends in one state), `OneBalanceExactly` and `OneResultExactly` (the coinbase balance and
the whole state do not depend on the interleaving), `OnlyCoinbaseExactly` (nothing but the coinbase
balance does), `HeaderGasExactly` (the header's gas is the counter), `NewcomerListedExactly` (a
staker enters the list), `RestartKeepsHeadExactly` (a restart finds the head), `StopIndexedExactly`
(a stop in mid-addition leaves the indices in order), `KeysCollideExactly` (database keys differ),
`RefusedExactly` (the chain refuses a block), `StateOfAcceptedExactly` (the stored state is the fold
of the accepted blocks: every refused block left the state it found), `MinedNumberExactly` (a mined
block extends the head), `OverlaySeesCodeExactly` (an overlay reads the code of the state below),
`NonceRoundTripExactly` (a nonce survives storing), `SyncedStakesExactly`
(the synced stakes are the recorded ones: the sync reads from 0x2000, the shown configurations
stake at 0x1000), and `LockCanBeFreed` with `FailedSealStopsTheNode` (a held lock can be freed).
Inputs at which the property fails are in `OvertakingExample`, `FeeLost`, `TwoHashes`, `CoinbaseInside`,
`HeaderFallsBehind`, `HeadNumberClobbers`, `ImportedTwice`, `StaleParent`, `OpeningAddsAllocation` and
`TwiceTheLimitHappens`.

Code and documents disagree in these places, and the model follows the code: specs.md:68 gives a
base fee of 100 wei where the code starts at and never goes below 1 Gwei; the message at
core/system_contracts.go:58 speaks of a top-up where the stake is replaced; the comment at
consensus/zelius.go:277 says that the hard-coded addresses match the system contracts, and the
stake address does not.

## Model

| member | source | states |
|---|---|---|
| Scheduler.Schedule | core/scheduler.go:9-62 | the waves returned are, wave by wave and in block order, the transactions that first fit assigns to each level; no wave is empty, every transaction is in one, and in a wave nobody's sender or recipient is sender or recipient of another |
| Scheduler.TakeWave | core/scheduler.go:22-43 | one scan with its touched map takes exactly the queued transactions of the current level and defers the others, in order |
| Scheduler.LevelsFit | core/scheduler.go:31-42 | the levels are first fit: each position has the least level no earlier conflicting position has |
| Scheduler.FirstFitUnique | core/scheduler.go:31-42 | first fit determines the levels of every block |
| Scheduler.WaveApart | core/scheduler.go:24-43 | inside a wave positions ascend and footprints are pairwise disjoint |
| Scheduler.WaitBound | core/scheduler.go:31-42 | a position at level n has at least m earlier conflicts in the first m waves, for every m up to n |
| Scheduler.ScheduleCorrect | core/scheduler.go:18-59 | each position lies in exactly one wave, and waits at most one wave for each earlier transaction it conflicts with |
| Order.DepthsExist | core/scheduler.go:31-42 | dependency depths, the lengths of longest conflict chains, exist for every block |
| Order.OrderKeptExactly | core/scheduler.go:31-42 | conflicting transactions keep block order if and only if the dependency depths of the block are gap free |
| Order.TransitiveKeepsOrder | core/scheduler.go:31-42 | a transitive conflict relation keeps block order |
| Order.OvertakingExample | core/scheduler.go:31-42 | A to B, B to C, C to D gives waves one-and-three, two: the third transaction overtakes the second |
| Wave.OverlayIsDirect | state/statedb.go:145-185 | a program on an overlay observes what it would observe writing straight into the state, and the overlay put over the parent is the state it would leave |
| Wave.SoloTwins | state/statedb.go:145-185 | under the frame hypothesis a run depends only on its own keys: from states that agree there, the overlays differ at most under shared keys |
| Wave.SoloOwned | state/statedb.go:172-185 | a run writes only its own keys and shared ones |
| Wave.StepKeepsInv | core/executor.go:84-225 | under the frame hypothesis every step of every goroutine keeps: outside the shared keys, overlays equal those of solo runs and the parent is the start state plus exactly the merged parts; only the lock holder merges |
| Wave.RunKeepsInv | core/executor.go:84-225 | under the frame hypothesis that invariant holds after every interleaving, complete or not |
| Wave.SoundRun | core/executor.go:194-224 | whatever the programs, in every interleaving only the lock holder merges, and only an executed transaction does |
| Wave.PriceIs | core/executor.go:199-206 | with a base fee the effective price is the lesser of gas price and base fee plus tip, without one the gas price |
| Wave.WaveIsSequential | core/executor.go:84-227 | under the frame hypothesis every complete interleaving of unlocked reads, overlay writes and key-by-key merges ends, outside the shared keys, in the state of running the wave one transaction at a time, and every transaction ends as it would alone |
| Wave.NoDeadlock | core/executor.go:194-227 | whatever the programs, in every state that keeps locks and phases in step some step is enabled while a transaction is unfinished |
| Progress.StepDrops | core/executor.go:78-227 | under the frame hypothesis, with halting programs, every effective step lowers a rank, so no interleaving runs for ever |
| Progress.CanComplete | core/executor.go:78-227 | under the frame hypothesis a wave of halting programs can be completed from every reachable state |
| Turns.InTurns | core/executor.go:84-227 | whatever the halting programs, transactions of a wave can take turns in any order, and then leave the parent as running them one at a time in that order does |
| Turns.Overlap | core/executor.go:84-225 | whatever the halting programs, two executed transactions of a wave can both run before either merges, and then leave both overlays, the second over the first |
| Races.SharedKeyRace | core/executor.go:84-225 | from every starting state, a wave two of whose transactions credit one key while the others do nothing has a complete interleaving that keeps both credits and one that loses the first |
| Races.DeterministicExactly | core/executor.go:84-227 | for all programs keeping to given access sets and all starting states a wave ends in one state if and only if the access sets are pairwise disjoint |
| Messages.ThenFits | core/executor.go:163-193 | programs that meet the frame hypothesis, run one after the other, meet it |
| Messages.ThenEnds | core/executor.go:163-193 | programs run one after the other end as the second does, on the state the first computed |
| Messages.MessageFits | vendor/github.com/ethereum/go-ethereum/core/state_transition.go:545-560 | a message whose execution and processing meet the frame hypothesis meets it with its coinbase credit between them |
| Messages.MessageEffect | core/executor.go:163-193 | a message ends as its execution does, and its effect is the execution, then the fee for its gas added to the coinbase balance in 256 bits, then the processing of system contracts |
| Fees.CreditAdvance | vendor/github.com/ethereum/go-ethereum/core/state_transition.go:545-560 | at every instruction of a message, whatever the parent does meanwhile: its overlay holds nothing under the coinbase key until the balance it read, and then that balance plus its fee |
| Fees.CoinbaseReceives | vendor/github.com/ethereum/go-ethereum/core/state_transition.go:545-560 | every complete interleaving of a wave of halting messages with disjoint own keys, the coinbase balance not among them, leaves the coinbase its old balance plus the fees of some executed messages, of at least one if any was executed |
| Fees.FeeLost | vendor/github.com/ethereum/go-ethereum/core/state_transition.go:545-560 | in such a wave with two executed messages one of which pays, complete interleavings differ in the coinbase balance: in turn all fees arrive, and when the two overlap the first fee is lost |
| Fees.OneBalanceExactly | vendor/github.com/ethereum/go-ethereum/core/state_transition.go:545-560 | all complete interleavings of such a wave leave the coinbase the same balance if and only if no two messages are executed from the starting state, or none of the executed pays a fee (in 256 bits) |
| Coinbase.OnlyCoinbaseDiffers | core/executor.go:45-265 | any two complete interleavings of a block of fee-paying messages with distinct hashes, whose executions and processing keep to the keys of sender and recipient other than the coinbase balance, give the same receipts, and states that differ at most in the coinbase balance |
| Coinbase.OnlyCoinbaseExactly | core/executor.go:84-227 | in a wave of at least two messages, where an access set with the coinbase balance has another key too: all complete interleavings agree outside the coinbase balance, for all halting messages keeping to given disjoint access sets and from all states, if and only if the coinbase balance is in none of them |
| Coinbase.CoinbaseInside | core/executor.go:84-227 | wherever a sender or recipient owns the coinbase balance and another key, messages exist for which that other key depends on the interleaving |
| Traces.Commute | core/scheduler.go:31-42 | under the frame hypothesis transactions with disjoint keys commute outside the shared keys |
| Traces.TraceEquivalent | core/executor.go:72-228 | under the frame hypothesis two orders of the same positions that agree on every conflicting pair give the same state outside the shared keys |
| Traces.AnyOrder | core/executor.go:78-84 | under the frame hypothesis positions no two of which conflict give the same state outside the shared keys in any order |
| Traces.KeptOrderIsBlockOrder | core/executor.go:72-228 | under the frame hypothesis, if conflicting pairs keep their order, wave after wave equals block order outside the shared keys |
| Traces.ReversedOrderShows | core/executor.go:72-228 | if a conflicting pair is reversed, and every address owns some key, framed programs exist for which the result differs from block order |
| Traces.BlockOrderExactly | core/executor.go:72-228 | wave after wave equals block order, for all programs that keep to their footprints and all starting states, if and only if conflicting pairs keep their order |
| BlockExec.OwnIndex | core/executor.go:66-70 | with distinct hashes the index map gives every transaction its own position |
| BlockExec.IndexNames | core/executor.go:66-70 | also with repeated hashes the slot handed out carries the hash asked for |
| BlockExec.IndexIsLast | core/executor.go:66-70 | with repeated hashes the slot handed out is the last position carrying the hash |
| BlockExec.WaveAnyOrder | core/executor.go:84-227 | under the frame hypothesis every complete interleaving of a wave equals, outside the shared keys, running its transactions one at a time in any order |
| BlockExec.BlockIsDeterministic | core/executor.go:72-228 | under the frame hypothesis gas counter, fees and the state outside the shared keys after any number of waves, gas cut-off included, are those of a sequential run |
| BlockExec.SequentialIsFlat | core/executor.go:72-76 | the state is that of the waves started before the gas limit, one transaction after the other |
| BlockExec.BlockOrderState | core/executor.go:72-228 | under the frame hypothesis, with no wave cut off and gap-free depths (so in particular for transitive conflicts), the state outside the shared keys is that of block order |
| BlockProgress.BlockCanComplete | core/executor.go:72-228 | under the frame hypothesis a block of halting programs has a complete run from every starting state |
| Agreement.ResultsAgree | core/executor.go:45-265 | under the frame hypothesis one block, executed on states equal outside the shared keys in any complete interleavings, leaves states equal outside the shared keys, reward included |
| Agreement.ReceiptsAgree | core/executor.go:64-261 | and, with distinct hashes, the same receipts |
| Agreement.NodesAgree | node/node.go:141-171 | two nodes that start from states equal outside the shared keys and have written the same blocks of framed programs in the same order store the same state outside the shared keys, whatever the interleavings of their goroutines, rounds and imports; so does their memory once their locks are free |
| Agreement.ExecutionsExist | core/executor.go:45-265 | every complete execution of a block is a list of writes the pipeline can make |
| Agreement.OneResultExactly | core/executor.go:45-265 | a block of halting fee-paying messages none of which conflict leads to one state in all complete interleavings if and only if no two messages are executed, or none of the executed pays a fee |
| Agreement.TwoHashes | types/block.go:41-52 | otherwise two executions of that block on one state exist whose blocks have different hashes |
| Agreement.EmptyBlockPays | core/executor.go:230-241 | a block without transactions adds the reward to the coinbase balance and changes nothing else |
| Agreement.EmptyBlocksGrow | core/executor.go:230-241 | empty blocks of one proposer, whose balance stays below 2^256, raise that balance with every block: the growth GrowthIsNeverRefused asks for |
| Receipts.TallyRun | core/executor.go:194-208 | whatever the programs, at every point of every interleaving the counters are the sums over the finished transactions |
| Receipts.WaveTally | core/executor.go:194-208 | under the frame hypothesis the gas counter, in uint64 arithmetic, and the fees after a wave are the sums over solo runs, whatever the merge order |
| Receipts.SlottedRun | core/executor.go:167-222 | whatever the programs, when each transaction has an empty slot of its own, each slot of the wave holds the receipt its transaction leaves, and the other slots are untouched |
| Receipts.SoleRun | core/executor.go:167-222 | whatever the programs, in every interleaving the slot of a transaction that shares it with no other of its wave holds the receipt that transaction has left, or what it held before |
| Receipts.BalancedRun | core/executor.go:167-222 | whatever the programs, when only uncharged transactions share slots, every interleaving keeps the counters equal to the sums over the slots and every receipt under its own hash |
| Receipts.NamedRun | core/executor.go:167-222 | whatever the programs, every interleaving keeps each receipt under a slot of its own hash, shared slots included |
| Receipts.GasCapped | core/executor.go:167-222 | whatever the programs, no interleaving puts more gas under a slot than a transaction of that slot can use |
| Receipts.Compact | core/executor.go:246-261 | one receipt per transaction, empty slots filled with failed receipts, cumulative gas the prefix sum |
| Receipts.HeaderGasIsCounter | node/node.go:685-690 | when counters and slots balance, the header's gas equals the merge-time counter, overflow included |
| BlockReceipts.LedgerBalanced | core/executor.go:64-228 | whatever the programs and interleavings, complete or not, counters and receipt slots balance as long as only uncharged transactions share hashes |
| BlockReceipts.HeaderMatchesCounters | core/executor.go:194-261 | for every such block, whatever its programs and interleavings, the header gas is the merge-time counter and the fees are the sum of gas times effective price over the receipts |
| BlockReceipts.CoinbasePaid | core/executor.go:194-241 | whatever the programs and interleavings, as long as only uncharged transactions share hashes, the coinbase ends with what the waves left it plus 10^19 plus, over the receipts, gas used times the lesser of gas price and base fee plus tip (the gas price where there is no base fee), in 256 bits; no other key changes |
| SharedHashes.HeaderGasExactly | core/executor.go:66-70 | with hashes naming transactions, the header gas equals the counter for all programs, starting states and interleavings if and only if no two charged transactions of the block share a hash |
| SharedHashes.HeaderFallsBehind | core/executor.go:66-222 | in every complete run of a block that holds a charged, nonce-checked transaction more than once and nothing else that is executed, from a state in which its nonce, below 2^63, is due, the counter ends at the gas of its one execution, positive and within the block limit, and the header gas at zero |
| BlockReceipts.SlotsAfterWaves | core/executor.go:72-228 | under the frame hypothesis, for distinct hashes, after n waves the slots hold the solo receipts of the positions run so far, and none for those the gas limit cut off |
| BlockReceipts.BlockReceiptsAre | core/executor.go:64-261 | under the frame hypothesis, for distinct hashes, every complete interleaving gives the receipts of solo runs with prefix-sum cumulative gas, and fees equal to the sum of gas times effective price over them |
| BlockReceipts.ReceiptsSay | core/executor.go:167-272 | under the frame hypothesis, for distinct hashes, in every complete interleaving: a transaction whose wave starts with the counter at most 60,000,000 and that is executed, judged alone on the state its wave starts from, has status one unless it failed and its gas used, zero if it goes to a system contract; every other one has status and gas zero; cumulative gas is the prefix sum in uint64 |
| BlockReceipts.HashesInPlace | core/executor.go:64-261 | in every interleaving of every block, whatever its programs and repeated hashes included, there are as many receipts as transactions and receipt i has the hash of transaction i |
| BlockReceipts.ApplyBlockDeterministic | core/executor.go:45-265 | under the frame hypothesis, for distinct hashes, any two complete interleavings of a block end in the same receipts and, outside the shared keys, the same state, reward included |
| StateStore.StateDb.New | state/statedb.go:52-94 | whatever the root argument and the iteration order, a new state reads exactly the leaves stored in the database |
| StateStore.Replay | state/statedb.go:66-88 | replaying the stored leaves in any order rebuilds the stored state |
| StateStore.StateDb.Overlay | state/statedb.go:97-108 | a new overlay reads as its parent does |
| StateStore.StateDb.Get | state/statedb.go:145-170 | through any stack of overlays a read agrees with the one flat map of the stack |
| StateStore.StateDb.Set | state/statedb.go:172-185 | a write changes the flat map at that key only, and touches no state below |
| StateStore.StateDb.Merge | state/statedb.go:111-131 | in any iteration order the parent afterwards reads as the overlay did at every key; code and preimages are put over the parent's, logs appended to them; the overlay reads as before |
| StateStore.JoinLogs | state/statedb.go:123-126 | in any iteration order, the logs of each transaction are the first state's followed by the second's |
| StateStore.StateDb.Collect | state/statedb.go:119-130 | code, logs and preimages of the overlay arrive; what the state reads is untouched |
| StateStore.StateDb.Absorb | state/statedb.go:115-118 | putting a dirty set over a state, key by key in any order, changes its flat map by exactly that set |
| StateStore.StateDb.Commit | state/statedb.go:188-208 | the batch is that of the dirty leaves and the cached code (Database.Batch); a base state reads as before, an overlay would forget its writes |
| StateStore.CommitAndReload | state/statedb.go:188-208 | after commit, batch write and reload the rebuilt state reads as the committed one; the database holds all the cached code, and other code as before |
| StateStore.SetTracked | state/statedb.go:172-185 | a write keeps a base state equal to its stored leaves plus its uncommitted writes |
| StateStore.StoreNonce | state/statedb.go:295-305 | a nonce read back after commit and reload is the one set if and only if it is at most 2^63 |
| StateStore.SetCode | state/statedb.go:334-339 | the account gets the hash, the cache of this state the code, and nothing else changes |
| StateStore.GetCode | state/statedb.go:307-332 | nothing for the hash of the empty code, else the code cached in this state, else the stored one; caching the answer changes no later answer |
| StateStore.DeployAndReload | state/statedb.go:188-339 | code deployed to an account is read back after commit, batch write and reload, the hash being collision-free |
| StateStore.OverlaySeesCodeExactly | state/statedb.go:97-108 | a fresh overlay reads an account's code as the state below does if and only if it is empty, stored, or not cached below: code deployed since the last commit is missed |
| StateStore.GetBalance | state/statedb.go:281-289 | the low 256 bits stored under the balance key of the flat map |
| StateStore.SetBalance | state/statedb.go:291-293 | only the balance key changes, to minimal bytes |
| StateStore.AddBalance | state/statedb.go:259-269 | 256-bit addition to one balance, no other key changed |
| StateStore.SubBalance | state/statedb.go:276-279 | 256-bit subtraction by adding the two's complement |
| StateStore.GetState | state/statedb.go:357-370 | the word stored under the slot key of the flat map, zero when absent |
| StateStore.SetState | state/statedb.go:372-377 | only the slot key changes, to a full 32-byte word |
| Base.MinBytes | state/statedb.go:281-293 | minimal big-endian bytes denote the number again and have no leading zero |
| Base.FixedBytesValue | core/rawdb/accessors_chain.go:138-140 | a fixed-width encoding denotes the number cut to that width |
| Accounts.FieldKeysDiffer | state/statedb.go:218-233 | keys of different accounts, fields or storage slots differ |
| Accounts.FieldKeyLayout | state/statedb.go:218-233 | a key is the twenty address bytes and zero, one or two for nonce, balance and code hash, or the 32 bytes of a storage slot |
| Accounts.BalanceRoundTrip | state/statedb.go:281-293 | a balance written in minimal bytes is read back, and no other field changes |
| Accounts.SlotRoundTrip | state/statedb.go:357-377 | a storage word is read back, cut to 256 bits, and no other field changes |
| Accounts.GrantsRead | core/blockchain.go:48-53 | adding an allocation to a state raises each allocated balance by its allocation in 256 bits, and changes no other field |
| Accounts.NonceRoundTripExactly | state/statedb.go:295-305 | the signed reading of a nonce survives exactly up to 2^63; a larger n comes back as 2^64 - n |
| Registry.DepositKeepsList | core/system_contracts.go:31-60 | a deposit keeps the flat key space a well-formed list: a listed validator stays, a newcomer is appended |
| Registry.RemoveKeepsList | core/system_contracts.go:78-108 | swap-and-pop keeps it well formed: the last validator takes the freed slot |
| Registry.DepositStakes | core/system_contracts.go:32-35 | recorded stakes grow by at most the deposit, because a second deposit replaces the first |
| Registry.RemoveStakes | core/system_contracts.go:99-108 | recorded stakes shrink by exactly the leaver's stake |
| StakingHistory.PayConserves | core/system_contracts.go:74-76 | debit then credit of an amount the payer has is a plain transfer and conserves the supply, also to oneself |
| StakingHistory.StepKeepsGood | core/system_contracts.go:29-157 | every legal message, and other activity, keeps registry, solvency and supply |
| StakingHistory.EveryHistoryGood | core/system_contracts.go:29-114 | after every legal history slots and pointers are mutually inverse, an address is listed exactly when its stake is nonzero, other registry words are zero, the list is the one plain joining and leaving gives, the pool covers the stakes, and the supply stays below 2^256 |
| StakingHistory.UnstakeNeverBlocked | core/system_contracts.go:62-76 | where the registry is well formed and the pool solvent, a listed validator can always leave and is paid its full recorded stake |
| StakingHistory.ProcessConserves | core/system_contracts.go:19-157 | system-contract processing conserves the total of all balances below 2^256 |
| StakingHistory.NewcomerListedExactly | core/system_contracts.go:31-55 | from every well-formed registry a newcomer's deposit is recorded, and some slot up to the count names the newcomer if and only if its address exceeds the number already listed |
| StakingHistory.OtherWords | core/system_contracts.go:29-157 | no history changes storage outside the staking and validator contracts |
| StakingHistory.ProcessWritesOwned | core/system_contracts.go:29-114 | staking messages change only what sender and recipient own |
| StakingHistory.ProcessReadsOwned | core/system_contracts.go:29-114 | what they leave there depends only on what sender and recipient own |
| StakingHistory.RewardLeavesFootprint | core/system_contracts.go:140-149 | a reward message pays an account outside its footprint |
| Processing.DepositExactly | core/system_contracts.go:31-60 | for every state and depositor: no balance moves, the stake becomes the value, a depositor with an index changes nothing else, one without becomes the entry after the last; no other word changes |
| Processing.RemoveExactly | core/system_contracts.go:78-108 | for every state and leaver, listed or not: every word of both contracts after the swap-and-pop, no balance and no other word changed |
| Processing.UnstakeExactly | core/system_contracts.go:62-113 | without a stake, or with a pool that cannot pay it, nothing changes; otherwise pool and leaver move by exactly the stake and the words are those of the removal |
| Processing.RewardExactly | core/system_contracts.go:134-155 | a zero-value reward message whose amount, in 256 bits, the vault does not have changes nothing; otherwise the vault falls and the target rises by exactly the amount, the sender as target included, and paying the vault itself changes nothing |
| Processing.RewardArrives | core/system_contracts.go:147-149 | with a supply below 2^256 the target's balance does not wrap around |
| Processing.OthersChangeNothing | core/system_contracts.go:29-134 | every message other than a deposit, an unstake and a zero-value reward, in particular a reward that carries value, changes nothing |
| Processing.StakingExactly | core/system_contracts.go:29-113 | what a message to the staking contract leaves in every stake and balance: one that carries value and unstakes gets its value back and loses an earlier stake |
| Processing.SendExactly | vendor/github.com/ethereum/go-ethereum/core/state_transition.go:476-483 | a message with a value its sender does not have leaves no trace in a history; a call nobody processes moves its value and nothing else |
| StakingProgram.StakingSteps | core/system_contracts.go:29-114 | the processing of a staking message, run as a script on any state, does to its balances and words what the arithmetic processing does |
| StakingProgram.StakingFramed | core/system_contracts.go:29-114 | that script keeps to the keys its sender and the staking contract own |
| StakingMessages.ExecEnds | vendor/github.com/ethereum/go-ethereum/core/state_transition.go:265-330 | a transfer to an account without code is refused if the nonce differs or is the last, or the balance does not cover gas cap and value; otherwise the nonce is raised, and the balances are charged, moved and refunded as the additions say |
| StakingMessages.ExecutedBalances | vendor/github.com/ethereum/go-ethereum/core/state_transition.go:265-330 | with a supply below 2^256 the execution costs the sender value and gas used, brings the recipient the value, and changes no other balance and no word |
| StakingMessages.StakingMessageEffect | core/executor.go:163-193 | with a supply below 2^256 and a coinbase other than sender and staking account, a staking message that passes the checks does to balances and registry what a staking history does when the sender is charged, the coinbase credited and the message then sent, and raises the nonce; one that does not leaves no trace |
| StakingMessages.NotTwice | vendor/github.com/ethereum/go-ethereum/core/state_transition.go:309-325 | on the state a staking message leaves when it passes the checks, the same message is refused and changes nothing, for every nonce |
| StakingMessages.StakingMessageFits | core/executor.go:163-193 | such a message meets the frame hypothesis with the coinbase balance as the shared key |
| StakingBlocks.BlockKeepsRegistry | core/executor.go:45-265 | in every complete interleaving of a block of staking messages and of framed programs that leave the staking contract alone and mint nothing, from a well-formed registry, a solvent pool and a supply below 2^256, the block leaves the registry well formed and the pool solvent; stakers have addresses above the counts reached |
| StakingBlocks.RegistryInEveryRun | node/node.go:141-171 | so does a node, at every step of every interleaving of rounds and imports of such blocks, as long as no block starts from a supply past 256 bits |
| Scripts.ScriptEffect | core/executor.go:93-195 | a script that ends, ends as a transaction on an overlay with the same outcome, leaving the state it computes step by step if it is applied and the state it found otherwise |
| SystemContracts.DepositOn | core/system_contracts.go:31-60 | the storage writes of a deposit do to the state what the arithmetic deposit does |
| SystemContracts.SwapOn | core/system_contracts.go:86-97 | the two writes that move the last validator do what the arithmetic swap does |
| SystemContracts.ClearOn | core/system_contracts.go:99-108 | the four writes that clear the last slot, the count and the leaver do what the arithmetic does |
| SystemContracts.RemoveOn | core/system_contracts.go:78-108 | the storage writes of a removal do what the arithmetic removal does |
| SystemContracts.UnstakeOn | core/system_contracts.go:62-113 | the guarded refund and removal on a state refine the arithmetic unstake |
| SystemContracts.ProcessSystemContracts | core/system_contracts.go:19-157 | the whole routine on an overlay refines the arithmetic processing, refusals included |
| Election.Search | consensus/zelius.go:207-214 | the position found reaches the target, and no earlier one does |
| Election.WinnerInterval | consensus/zelius.go:207-218 | the fallback is never reached; a position wins the targets above the stake before it up to the stake through it, the first also target zero |
| Election.WinsClosedForm | consensus/zelius.go:192-214 | how many of the targets below n elect a position, for every n up to the total |
| Election.ExactWins | consensus/zelius.go:192-218 | for nonnegative stakes with a positive total there is a last positive stake, and over all targets each position wins its stake, except that one unit moves from that position to the first |
| Consensus.LeaderElects | consensus/zelius.go:183-219 | in a nonempty duplicate-free set with nonnegative stakes and a positive total, a position leads a view if and only if the hash of the view modulo the total is at most the stakes through it and, unless it is the first, above the stakes before it; with total zero the views rotate |
| Consensus.LeadsItsStake | consensus/zelius.go:192-218 | over all hash values below the total each validator leads as often as it has stake, except that one unit moves from the last validator with stake to the first listed |
| Consensus.ZeliusEngine.GetLeader | consensus/zelius.go:183-219 | cached or not, the answer is the validator that LeaderElects describes for the current set, and the schedule stays correct |
| Consensus.TotalStake | consensus/zelius.go:192-195 | the sum of all stakes |
| Consensus.FirstReaching | consensus/zelius.go:207-214 | the loop finds the first position whose cumulative stake reaches the target, or none |
| Consensus.ZeliusEngine.constructor | consensus/zelius.go:44-53 | a new engine has the given set, its threshold, an empty schedule and no strikes, so that a nonempty duplicate-free set makes it coherent |
| Consensus.ZeliusEngine.AddValidator | consensus/zelius.go:128-139 | the set, threshold and cleared schedule after an addition |
| Consensus.ZeliusEngine.RemoveValidator | consensus/zelius.go:142-156 | the set, threshold and cleared schedule after a removal; the last validator stays |
| Consensus.ZeliusEngine.RecordNonCompliance | consensus/zelius.go:165-173 | the count grows by one and the thousandth slashes |
| Consensus.ZeliusEngine.SyncValidators | consensus/zelius.go:256-313 | the set becomes what the registry of the state lists, read with the reader's addresses and the low 64 bits of the count; a zero count changes nothing |
| Consensus.ReadValidators | consensus/zelius.go:288-303 | the addresses of the first n registry slots, each with the stake found under the reader's address |
| Consensus.AddedStakes | consensus/zelius.go:128-139 | in a duplicate-free set an addition grows one address's stake, from nothing if it is new, and no other |
| Consensus.AddedOrder | consensus/zelius.go:128-139 | in a duplicate-free set a known validator keeps its place with the stake added, a new one goes to the end, everybody else is as before |
| Consensus.RemovedStakes | consensus/zelius.go:142-156 | a removal from a duplicate-free set of several takes out one address and no other |
| Consensus.RemovedOrder | consensus/zelius.go:142-156 | a removal from a duplicate-free set of several closes the gap and keeps the order of the others |
| Consensus.ThousandStrikes | consensus/zelius.go:165-173 | a validator with a clean record in a set of several is slashed by the thousandth strike and not before, and nobody else is |
| Consensus.StepCoherent | consensus/zelius.go:128-219 | each single operation keeps every cached leader correct |
| Consensus.EveryRunCoherent | consensus/zelius.go:128-219 | over every run whose syncs bring nonempty duplicate-free sets, each cached leader is the one the current set elects, the set stays nonempty and duplicate-free, and f = (n-1)/3 |
| Consensus.EveryCachedLeaderElected | consensus/zelius.go:128-219 | so after every such run each cached leader is the one stakes and hash elect, in the sense of LeaderElects, from the current set |
| ValidatorSync.SyncYieldsStakers | consensus/zelius.go:280-303 | after every legal history with a count below 2^64 a sync yields exactly the current stakers, each once, in slot order |
| ValidatorSync.SyncedStakesExactly | consensus/zelius.go:277-300 | for a nonempty list, and with nothing stored under another reader address, the synced stakes are the recorded ones if and only if the reader's stake address is the configured one |
| ValidatorSync.MismatchedReaderRotates | consensus/zelius.go:192-199 | a reader under whose stake address nothing is stored makes the schedule a plain rotation through the slots |
| ValidatorSync.ShownConfigurationRotates | consensus/zelius.go:277-278 | from empty storage, in every reachable state of a configuration whose staking address the reader does not use, the synced engine rotates, whatever the stakes |
| Database.KeysCollideExactly | core/rawdb/accessors_chain.go:16-23 | database keys coincide only when equal, except the head key and the canonical key of 0x656164426c6f636b |
| Database.KeyLayout | core/rawdb/accessors_chain.go:16-23 | the keys as bytes: a one-letter ASCII prefix and the identifier, or the word HeadBlock |
| Database.SlotsAreBytes | core/rawdb/accessors_chain.go:122-154 | a database over bytes is a map over key classes |
| Database.BatchLeaves | state/statedb.go:188-201 | writing a commit's batch puts the dirty keys over the stored state |
| Database.BatchCode | state/statedb.go:196-201 | writing a commit's batch stores exactly the cached code under its hashes and leaves other stored code as it was |
| Database.ChainPutKeepsState | state/statedb.go:66-88 | a put under a chain key leaves the reloaded state unchanged |
| Database.CommitKeepsChain | state/statedb.go:189-201 | a state commit leaves every chain entry unchanged |
| Chain.AddReads | core/blockchain.go:97-121 | what an accepted block changes for the body, canonical, head and lookup readers, and what it leaves as it was |
| Chain.AddStoresReceipts | core/blockchain.go:102-107 | an accepted block's receipts, if there are any, are stored under its hash, and no others change |
| Chain.AddKeepsIndexed | core/blockchain.go:88-124 | an accepted block keeps all indices functions of the list of accepted blocks |
| Chain.RestartIsNoChange | core/blockchain.go:78-82 | reloading finds the head memory had |
| Chain.EveryChainIndexed | core/blockchain.go:33-124 | after every sequence of additions and restarts the head is the first accepted block of the greatest number and matches the stored hash, canonical entries name the last accepted block of their number, lookups the last place of their transaction |
| Chain.PlaceHolds | core/rawdb/accessors_chain.go:86-106 | every lookup entry names an accepted block holding that transaction at that index |
| Stops.AddIsPuts | core/blockchain.go:97-121 | the puts of an addition, made to the end, are the addition |
| Stops.StopFindsHead | core/blockchain.go:78-121 | after a stop at any point in the puts of an unknown ordinary block, a restart finds a head whose block is stored: the old one, or the new one once the head entry is put; once the first put is made, adding the block again changes nothing |
| Stops.LookupsAfterStop | core/blockchain.go:109-112 | after a stop the lookup entries are those of exactly the transactions whose puts were made, in block order after body and receipts |
| Stops.ReceiptsAfterStop | core/blockchain.go:102-107 | after a stop the receipts, if there are any, are stored if and only if the first two puts were made |
| Stops.StopIndexedExactly | core/blockchain.go:88-124 | the indices a restart finds are those of the old blocks if and only if no put was made, and those with the new block if and only if all were |
| Blockchain.Blockchain.constructor | core/blockchain.go:33-85 | opening a database with a head gives that head; opening one without adds the allocation to whatever balances it holds, writes the batch, adds the genesis block, and puts the head entry if the block was unknown |
| Blockchain.Allocate | core/blockchain.go:44-61 | in any iteration order the batch written is that of the allocation added to the stored balances |
| Blockchain.OpeningAddsAllocation | core/blockchain.go:42-77 | opening any database without a head leaves each stored balance raised by its allocation and every other field as it was, so after a stop before the head entry the allocation counts twice |
| Blockchain.OpeningStoresHeadExactly | core/blockchain.go:66-76 | opening a database without a head makes the genesis block, with a nonzero hash, the head in memory, and stores it as the head if and only if no block of its hash was stored |
| Blockchain.FreshStartIndexed | core/blockchain.go:42-77 | an empty database starts with the genesis block indexed |
| Blockchain.ReopenIsNoChange | core/blockchain.go:78-82 | opening an indexed database again gives the same chain |
| Blockchain.Blockchain.AddBlock | core/blockchain.go:88-124 | the puts of an addition, refusal of known hashes included |
| Blockchain.Blockchain.GetBlockByNumber | core/blockchain.go:134-142 | on an indexed chain, the last accepted block of the number, or none |
| Blockchain.CanonicalIsLast | core/blockchain.go:134-142 | on an indexed chain that is the last accepted block of the number |
| Blockchain.HandleGetBlocks | p2p/server.go:268-309 | the longest gap-free canonical run after a known block within the limit |
| Blockchain.ServedRun | p2p/server.go:281-304 | consecutive numbers after the start, each the last accepted block of its number, up to the limit or the first number never accepted |
| Blockchain.AddKeepsState | core/blockchain.go:97-121 | adding a block leaves the stored state unchanged |
| Blockchain.AddKeepsCode | core/blockchain.go:97-121 | adding a block leaves the stored code unchanged |
| Blockchain.CommitKeepsIndexed | state/statedb.go:188-208 | a state commit leaves the indices unchanged |
| Blockchain.RestartKeepsHeadExactly | core/blockchain.go:78-124 | after adding any unknown block with a nonzero hash and a number below 2^64 to an indexed chain, a restart finds the head memory has if and only if the number is not 0x656164426c6f636b or the block is newer than the head |
| Blockchain.HeadNumberClobbers | core/rawdb/accessors_chain.go:136-142 | an older block numbered 0x656164426c6f636b leaves memory's head alone but becomes the head after a restart |
| Pipeline.StepKeepsInv | node/node.go:521-566 | every step of every round and import keeps: only the lock holder is past its start, the disk holds whole blocks, memory is ahead by the block in hand |
| Pipeline.EveryInterleaving | node/node.go:141-171 | in every interleaving memory equals the state rebuilt from the database whenever the lock is free, and at every step the stored state is a whole number of blocks |
| Pipeline.FailedSealStopsTheNode | node/node.go:543-547 | after a failed seal nothing ever changes memory, disk, head or lock again |
| Pipeline.LockCanBeFreed | node/node.go:553-566 | unless its holder failed to seal, a held lock can always be freed by executing, committing and writing the block in hand |
| Pipeline.RoundDelivers | node/node.go:521-566 | whatever the others do, a mining round with the lock fails to seal, is still at its block, or has written it with its header and transactions |
| Pipeline.ImportsNeverStick | node/node.go:141-171 | without mining no interleaving of imports gets stuck with the lock |
| PipelineCode.CodeInEveryInterleaving | state/statedb.go:188-208 | in every interleaving from a started node with its code stored, the hash being collision-free: stored code stays and is unchanged, lies under its own hash, and whenever the lock is free everything cached is stored |
| PipelineCode.DeployedCodeIsStored | state/statedb.go:188-208 | code that a block deploys while it is executed is in the database at every later point of such a run at which the lock is free |
| PipelineChain.ChainInEveryInterleaving | node/node.go:141-171 | in every interleaving of rounds and imports of blocks with usable numbers, at every step, the chain indices are those of the accepted blocks |
| PipelineChain.RefusedExactly | core/blockchain.go:92-95 | in every interleaving, whether mined or received, the block in hand is refused if and only if an accepted block has the same header fields and left the same state |
| PipelineChain.FreshNodeStarts | core/blockchain.go:42-77 | a node that opens an empty database starts from the genesis allocation with the genesis block indexed and as its head, as the pipeline theorems assume |
| PipelineChain.SealCanFail | node/node.go:543-547 | from every started node with a head a failed seal can be reached |
| PipelineChain.StateOfAcceptedExactly | node/node.go:152-166 | in every interleaving the accepted blocks are the written ones without repeats, the stored state is the fold of the written ones, and it has been, block after block, the fold of the accepted ones if and only if every refused block left the state it found |
| PipelineChain.GrowthIsNeverRefused | core/executor.go:230-241 | where every written block raises some measure of the state, which no block accepted before exceeds at the start, no block is refused |
| PipelineChain.ImportedTwice | p2p/server.go:312-318 | a received block imported twice, the second execution leaving another state, is accepted twice under one number; the canonical entry names the second, and the head, if the block was newer, stays the first |
| PipelineChain.MinedNumberExactly | node/node.go:510-531 | in every interleaving a mined block about to be added has the number after the head's if and only if the head is still the parent its round read before taking the lock; otherwise it does not become the head |
| PipelineChain.StaleParent | node/node.go:510-521 | an import between the reading of the parent and the lock gives two accepted blocks of one number, the imported one being the head |
| BaseFee.MatchesEip | core/blockchain.go:189-220 | the adjustment, with one division, is that of the two divisions of EIP-1559, clamped at 1 Gwei below target |
| BaseFee.NextFeeIs | core/blockchain.go:172-220 | before the fork or without a parent fee the next fee is exactly 1 Gwei; past it, from a parent with a fee and a positive gas target, it is the rule of EIP-1559 in the header's own fields: target half the gas limit, divisor 8, at least one up, floor 1 Gwei below target |
| BaseFee.FeeDirection | core/blockchain.go:189-220 | above target the fee strictly rises; below it never rises and stays at the floor or above |
| BaseFee.FeeMonotone | core/blockchain.go:183-220 | from a fee of at least 1 Gwei, the next fee is monotone in gas used |
| BaseFee.FeeMovesByAnEighth | core/blockchain.go:189-220 | from a fee of at least 1 Gwei, with gas used up to twice the target, the fee moves by at most one eighth |
| BaseFee.FeesAboveFloor | core/blockchain.go:173-220 | along every built chain of headers whose first fee is absent or at least 1 Gwei, each later fee is at least 1 Gwei |
| BaseFee.FeeRisesExactly | core/blockchain.go:172-220 | on a built chain past the fork, from a fee of at least 1 Gwei, the fee rises if and only if more than half the gas limit is used, falls only if less is, and is given by that rule |
| BaseFee.EmptyRunReachesFloor | core/blockchain.go:204-219 | for one gas target, from a fee of at least 1 Gwei, empty blocks strictly lower it to exactly 1 Gwei, within a stated number of blocks, and hold it there |
| BaseFee.EmptyHeaders | core/blockchain.go:204-219 | along every built chain past the fork, the fee after n empty headers is that of n empty blocks, whatever the later gas limits |
| BaseFee.EmptyHeadersReachFloor | core/blockchain.go:173-219 | along every built chain a run of empty headers strictly lowers the fee to exactly 1 Gwei, within a stated number of headers, and holds it there |
| RateLimit.ReadLoop | p2p/peer.go:84-138 | which messages the loop handles |
| RateLimit.HandledExactly | p2p/peer.go:111-137 | a message is handled if and only if it and all before it come within the limit in their one-second window and have at most 10 MiB |
| RateLimit.ModeratePeerIsServed | p2p/peer.go:111-137 | a peer whose messages, in time order, have at most 10 MiB and number at most the limit in every closed one-second interval is never cut off |
| RateLimit.IntervalBound | p2p/peer.go:111-128 | what the counter knows of an interval after any number of messages |
| RateLimit.AtMostTwiceTheLimit | p2p/peer.go:111-128 | for messages in time order, at most twice the limit is handled in any closed one-second interval |
| RateLimit.TwiceTheLimitHappens | p2p/peer.go:113-117 | that bound is attained for every limit |

## Left out

- The EVM, gas metering, precompiles and signature recovery: a transaction is an abstract deterministic program, its sender a field.
- Go's fatal error on concurrent map access: each map read and write is one atomic step, so the model says what a wave computes if the runtime lets it run.
- Access lists and transient storage.
- Historical state by root: `New` ignores its root argument and the model does too.
- The splitting of a `REWARD:` payload into target and amount, and the lenient hex reading of both: a message carries the parsed payload.
- Contract addresses in receipts, block headers beyond number, gas and base fee, and Verkle commitments.
- Sharing of validator records between the engine and the network configuration: the engine's set is a value, so in-place updates seen through the configuration are not modelled.
- Database and marshalling errors: puts and batch writes succeed. A head entry that names no stored block, on which the code panics, is read as no head.
- A block reward past 256 bits, on which the code panics, wraps around in the model.
- The base fee of imported headers, which the code does not check: the fee theorems are about headers the node builds.
- Balance and nonce filtering of the transactions put into a block, prefetching, consensus simulation, seal and signature checks.
- Sockets, peer start and stop, handshake, RPC, command line, tickers and timeouts.
- What a node does between opening its database and its first round, other than loading the state.
- EveryHistoryGood: assumes stakers' addresses above every count reached (`NewcomerListedExactly` says what happens to a smaller one), a staking account that never sends, and other activity that does not drain it. A message whose EVM execution fails needs no case of its own: a message the sender cannot pay for is refused, vendor/github.com/ethereum/go-ethereum/core/vm/evm.go:283 transfers the value before any code runs, and state/statedb.go:411 makes the revert a no-op, so the transfer stays.
- EveryChainIndexed: assumes nonzero block hashes and numbers below 2^64 other than 0x656164426c6f636b, the number for which `RestartKeepsHeadExactly` gives the exact condition.
- ServedRun: assumes that the range neither wraps around 2^64 nor meets that number.
- BlockIsDeterministic: assumes the frame hypothesis and leaves the shared keys open; `DeterministicExactly` and `OneBalanceExactly` show why. It covers no messages that call other contracts, pay a reward target outside their footprint, or read the coinbase balance without being blind to it.
- OnlyCoinbaseDiffers: assumes that the coinbase is neither sender nor recipient in the block; `OnlyCoinbaseExactly` shows that without this it fails.
- ExecEnds: is for a recipient without code and a sender that is not a contract, and takes gas charges and gas used as given.
- RegistryInEveryRun: assumes that other programs by themselves never raise the total of all balances, stakers' addresses above the counts reached, fees covered by the charge, and for each block a starting supply below 2^256. `Solvent` and the list are concluded, not the supply, which a lost fee lowers.
- OneResultExactly: is for blocks without conflicts, which are one wave; for more waves `OneBalanceExactly` speaks wave by wave.
- GetLeader: asks for a nonempty duplicate-free set and a correct schedule, which every operation keeps; with an empty set and no cached leader the code panics.
- AtMostTwiceTheLimit: is for one constant limit; a peer that becomes trusted in mid-connection is given the larger one.

# MineAI node: a verified model

MineAI is a proof-of-work node with an account ledger, a best chain chosen by cumulative work, stored side
branches, an in-memory orphan pool, a bounded mempool and a relay that holds transactions arriving ahead of
their nonce. This project models that node and proves what it keeps over every run.

The model has two layers that meet in the methods' contracts.

* As values: `Types`, `Ledger`, `Headers`, `Chain`, `Tables`, `Mempool`, `Connecting`, `Branches`, `Node`,
  `Adoption` and `Runs` define the tables of a node as one value (`Tables.Store`) and every operation as a
  function of it. The theorems are about these functions.
* As objects: `Database.Storage` (the tables, updated in place, with nested all-or-nothing transactions),
  `Context.TxContext` (the scratch overlay of one block), `Machine.Blockchain` (validation, mempool,
  reorganization, orphans, templates) and `RelayNode.TxRelay` (held transactions) run the loops and updates of
  the program. Each method ensures that the new state is what the function of the same name gives for the old one.

Digests are free constructors: equal digests come from equal preimages. `Encoding` shows that the byte
preimages really have this property. Signature checks, address checksums, serialized sizes and the numeric value
of a digest are uninterpreted functions in `Types.Params`. Time is a parameter of every step.

The main results are these.

* **Replay refinement** (`Runs`): after any run of submitted transactions, mined blocks and network blocks,
  including reorganizations that succeed or are refused, accounts, supply, both indexes, undo rows and row work are
  the replay of the best chain from genesis, so the offline audit (`Integrity`) never raises. Tip work never falls.
* **Order independence** (`Convergence`): given an ancestor-closed set of blocks valid on their own branches with a
  unique heaviest one, take any run that hands all of them over - delivered or mined locally, in any order, with
  repetitions, malformed blocks and transactions in between - and reaches no limit of the node. It ends with the heaviest
  as tip and no orphan if and only if no orphan was waiting for a block when that block was mined locally. The limits are
  conditions on what happens during the run (`Limits`): no block is refused for depth, the stored blocks off the best
  chain fit among the side rows, an orphan finds a free place. Any two nodes that reach the heaviest block agree on every
  table. `StaticLimits` shows that a chain of any length delivered in order reaches no limit, nor does any run fed from a
  set that fits. `Twins` shows what a block outside the set can do that shares its digest with one inside.
* **Undo inverts connect** (`Connecting`, `Branches`), and a **refused reorganization leaves no trace** but the
  verdict on the blocks that failed (`NodeFacts`).
* **Mempool** (`MempoolFacts`, `ReorgReturns`, `Template`, `TemplateFacts`): gap-free, affordable, unconfirmed, capped
  queues after every step; exactly when disconnected transactions return, and what a sender keeps otherwise; the greedy template selects as many
  transactions as allowed, by fee and round (`Priority`), is accepted once solved, and costs no other pending transaction
  its place.
* **Ledger laws** (`ChainFacts`, `Flows`, `Rules`): conservation with a closed form, maturity row by row, every account the
  statement of its chain; in these terms, exactly which block connects (`Flows`) and which transaction is accepted
  (`Admission`). What a clean audit of any database guarantees (`AuditFacts`).
* **Difficulty and time** (`Difficulty`, `Retarget`, `HeaderWalk`, `MedianTime`, `MedianEven`): retargeting bounds, locality,
  shift invariance, closed form on ordered timestamps, and how little one false timestamp can move it; the windowed difficulty equals the whole-ancestry one; along the timestamps a node can
  receive the median never falls, for exactly the odd windows and those longer than any chain.
* **Relay** (`OutOfOrder`, `Relaying`), **locators** (`Locator`), **encodings** (`Encoding`) and **amounts** (`Amount`).

## Where code and documentation differ

The model follows the code.

* `PROTOCOL.md:256` says that disconnected transactions return when still valid. The code re-admits before it
  prunes, so a sender that still has later nonces pending has its next nonce counted past the returning ones, and
  nothing of that sender remains. `ReorgReturns.ReorganizeReturns` proves the exact condition for any reorganization:
  what is still valid returns if and only if the sender had nothing else pending. `LostOnReorg.ValidTransactionIsLost`
  is a run from genesis in which a valid transaction is lost.
* `PROTOCOL.md:243` says that an orphan connects when its parent arrives. There are two ways it does not.
  A parent mined locally goes through the strict path, which adopts no orphans: `Convergence.MineRegime` shows that
  exactly the orphans waiting for it are left behind, `Convergence.LeftBehindForGood` that they stay out however the
  network goes on, since delivering orphan or parent again is a duplicate, and `Convergence.Converges` that the node reaches the
  heaviest block if and only if that block does not descend from one left behind. `StrandedOnMine.HeavierIsLeftOut` is a
  run from genesis that ends on the lighter chain in this way.
  And a parent whose branch is refused with bad_timestamp stays as a side row, but the refusal skips adoption:
  `Deliveries.RefusedForTime` shows that exactly the orphans waiting for it are left beside it, and that delivering the
  parent again attempts the switch anew. `Convergence.Punctual`, a hypothesis of the convergence theorem, excludes this
  second way.
* `mineai/consensus.py:254` lets the header cover the id of the coinbase but not its body, so a block is not determined by its
  hash before its body is checked. `Twins.TwinShape` says which well-formed blocks share a digest,
  `Twins.TwinTakesPlace` exactly when such a twin, arriving first, takes the place of the valid block - unless it would
  extend the tip - and `Twins.TwinShutsOut` that the valid block delivered afterwards is then not taken in.
* `mineai/blockchain.py:212` says that the locator ends at genesis. The cut to 32 entries removes genesis above height
  2^23 + 7. `Locator.LocatorShape` gives the exact bound, and `Locator.ReplyStart` what the reply is on both sides of it.
* A profile may set any `mtp_window >= 1`. With an even window the median of recent blocks can fall;
  `MedianEven.NeverFallsIffOdd` shows that oddness is the exact condition among the windows a chain can outgrow, with a
  chain of small timestamps for each even one.

## Model

| member | source | states |
|---|---|---|
| Context.TxContext.Acct | mineai/blockchain.py:52-57 | reading an account brings its row into the overlay, records the old row once, and changes nothing any reader sees |
| Context.TxContext.Apply | mineai/blockchain.py:59-72 | nonce is checked before funds, funds are net of immature coinbase; a refusal changes nothing for a reader, success is exactly the transfer plus the fee |
| Context.ApplyAll | mineai/blockchain.py:530-534 | the first refusal of the whole list in order, duplicates before anything else of the same transaction; on success the overlay covers exactly the touched accounts |
| Ledger.UndoRestores | mineai/storage.py:362-377 | writing the recorded rows back restores every account, an absent row reading as (0, 0) |
| Ledger.TransfersConserve | mineai/blockchain.py:59-72 | inside a block, balances plus collected fees are constant |
| Merkle.NextLevel | mineai/consensus.py:118-123 | one pass pairs neighbours and promotes an odd last digest unchanged |
| Merkle.ComputeMerkleRoot | mineai/consensus.py:112-124 | the level-by-level loop terminates with the root of the pairing tree, all zeros for no ids |
| Merkle.RootDeterminesIds | mineai/consensus.py:112-124 | flattening the root gives the id list back in order |
| Merkle.MerkleInjective | mineai/consensus.py:112-124 | two lists of any lengths with equal roots are equal |
| MedianTime.MedianStep | mineai/consensus.py:265-274 | accepting a timestamp above the median never lowers it, while the window fills (odd and even counts) and ever after with an odd window |
| MedianTime.MedianMonotone | mineai/consensus.py:265-274 | along any accepted chain with an odd window the median never falls |
| MedianTime.ExceedsEveryAncestorMedian | mineai/consensus.py:269-272 | an accepted timestamp exceeds the median seen at every ancestor |
| MedianTime.MedianIgnoresOrder | mineai/storage.py:269-273 | reading the timestamps newest first gives the same median |
| MedianTime.MedianIsMiddle | mineai/consensus.py:265-274 | the median is the floored mean of the elements of rank (n - 1) / 2 and n / 2, counted by how many reach them |
| MedianEven.EvenWindowFalls | mineai/consensus.py:265-274 | for every even window 2k an accepted chain of 2k + 2 timestamps, all between 0 and k + 14, along which the median falls |
| MedianEven.NeverFallsIffOdd | mineai/consensus.py:265-274 | along all accepted chains of timestamps a node can receive (0 to 2^63 - 1, heights within the same range) the median never falls if and only if the window is odd or longer than any such chain |
| Difficulty.Accumulate | mineai/consensus.py:183-192 | the loop accumulates the weighted solve times and the summed difficulties of the window in one pass |
| Difficulty.ComputeNextDifficulty | mineai/consensus.py:171-197 | the loop computes the difficulty of the definition, with all floors, caps and clamps, and never divides by zero |
| Difficulty.WeightedBounds | mineai/consensus.py:185-191 | the weighted sum lies in [w(w+1)/2, 3T w(w+1)] for any timestamps |
| Difficulty.RetargetBounds | mineai/consensus.py:193-193 | the average before the limits lies between floor(S/(6w)) and floor(S T/w) |
| Difficulty.NextInRange | mineai/consensus.py:194-197 | the result is in [min_difficulty, 2^62] and, from a parent in range, within a factor two of it |
| Difficulty.NextDifficultyLocal | mineai/consensus.py:171-197 | only the last lwma_window + 5 headers matter |
| Difficulty.NextDifficultyShift | mineai/consensus.py:165-197 | shifting all timestamps changes nothing |
| Difficulty.SteadyStateIsFixed | mineai/consensus.py:171-197 | exact spacing at constant difficulty requires exactly that difficulty |
| Retarget.ReadingIsMedian | mineai/consensus.py:165-168 | each reading is one of the up to five latest timestamps, at least n - n/2 of them reach it and at least n/2 + 1 do not exceed it |
| Retarget.ReadingRobust | mineai/consensus.py:165-168 | whatever one timestamp of an ordered history is replaced by, every reading stays between the honest timestamps three and one blocks back |
| Retarget.EffectiveLeast | mineai/consensus.py:186-191 | the smoothed times are the least strictly increasing ones not before the readings |
| Retarget.NearestInLimits | mineai/consensus.py:194-197 | the result is the value nearest to the average within a factor two of the parent and within the range of difficulties |
| Retarget.OrderedDifficulty | mineai/consensus.py:171-197 | on increasing timestamps the difficulty is the limited value of S (w + 1) T / (2 V), w = min(lwma_window, n - 5), S the last w difficulties, V the sum of k times the k-th gap capped at 6 T, two blocks behind |
| Retarget.RateScales | mineai/consensus.py:171-197 | blocks at a constant rate require the difficulty scaled by spacing over gap, for every gap up to six spacings |
| Retarget.FalseStampMovesLittle | mineai/consensus.py:165-197 | one arbitrary timestamp in a network on schedule moves the difficulty at most down to (w + 1) / (w + 5) and up to (w + 1) / (w - 3) of it |
| Headers.LinkedDifficulties | mineai/consensus.py:194-197 | along every chain each difficulty is in range and at most a factor two from its parent's |
| Headers.GenesisFixesAllocations | mineai/consensus.py:203-224 | two profiles share a genesis if and only if they allocate the same amounts to the same addresses, in any listed order |
| HeaderWalk.StoredWalkIsSuffix | mineai/storage.py:333-354 | the stored walk, side branches by hash and then best chain by height, is the end of the parent-pointer walk over the whole ancestry |
| HeaderWalk.ExpectedDifficultyExact | mineai/blockchain.py:97-108 | any computed difficulty is the whole-ancestry one, and with stored ancestry one is always computed |
| ChainFacts.SupplyConserved | mineai/blockchain.py:530-543 | on every branch the sum of balances is the minted supply |
| ChainFacts.MintedClosedForm | mineai/consensus.py:106-108 | minted supply is min(max_supply, genesis allocation + height * reward) |
| ChainFacts.ImmatureIsLocked | mineai/blockchain.py:47-47 | what is withheld from an address at any height h is the sum of subsidy and fees over exactly the rows k >= 1 it mined with k < h < k + coinbaseMaturity |
| ChainFacts.RewardMatures | mineai/storage.py:275-283 | the reward of row k is withheld from its miner alone, and stops counting exactly at height k + coinbaseMaturity |
| ChainFacts.BalanceCoversImmature | mineai/blockchain.py:44-66 | every balance covers the rewards of all rows k its owner mined with k < h < k + coinbaseMaturity, h the next height, for every maturity value |
| ChainFacts.MaturitySafety | mineai/blockchain.py:59-69 | after any transaction of any block at height h its sender still holds the rewards of all rows k it mined with k < h < k + coinbaseMaturity |
| ChainFacts.WithinSupply | mineai/consensus.py:92-108 | after any number of a block's transactions every balance, the fees so far and the coinbase stay within max_supply |
| ChainFacts.NonceIsCount | mineai/blockchain.py:62-70 | each account nonce is the number of its transactions on the chain |
| ChainFacts.ConfirmedNoncePassed | mineai/blockchain.py:531-534 | an indexed transaction's nonce has been passed by its sender |
| Flows.BalanceIsFlow | mineai/blockchain.py:530-543 | on every branch each balance is the allocation plus all amounts and coinbases paid to the address minus all its amounts and fees, each nonce the number of its transactions |
| Flows.TransactionsExact | mineai/blockchain.py:530-534 | the transactions of a block pass if and only if each was never confirmed, has the next nonce of its sender, and costs no more than the sender's statement shows beyond the rewards still withheld |
| Flows.ConnectsExactly | mineai/blockchain.py:520-543 | a well-formed block on the tip connects if and only if its timestamp lies above the median and not beyond the future bound, all its transactions may spend, and its coinbase pays exactly the capped reward and the fees |
| ChainFacts.ChainMedianMonotone | mineai/blockchain.py:527-528 | every block's timestamp exceeds the median at every earlier height (odd window) |
| ChainFacts.ChainDifficulties | mineai/blockchain.py:490-491 | every best-chain block declares the whole-ancestry difficulty, however it was connected |
| TableFacts.IndexIsInverse | mineai/storage.py:308-310 | tx_index maps an id to a place if and only if the best chain lists it there |
| TableFacts.IndexListsBlocks | mineai/storage.py:308-310 | tx_index has an id at a place if and only if it is the coinbase id of that block at position 0, or the id of the transaction one position earlier in its list |
| TableFacts.AddressesAreInverse | mineai/storage.py:103-112 | tx_addresses holds a row if and only if that entry of the best chain touches that address |
| TableFacts.AddressesListBlocks | mineai/storage.py:103-112 | tx_addresses lists exactly the recipient of every coinbase and the sender and recipient of every transaction, with their places |
| TableFacts.ApplyKeepsInv | mineai/storage.py:296-321 | storing a valid next block keeps every table equal to its replay |
| TableFacts.DisconnectKeepsInv | mineai/storage.py:362-384 | removing the tip leaves every table equal to the replay of the shorter chain |
| Database.Storage.constructor | mineai/storage.py:285-294 | a fresh database holds genesis and exactly its allocations |
| Database.Storage.Begin | mineai/storage.py:187-193 | the outermost transaction remembers the tables it started from, an inner one joins it |
| Database.Storage.Rollback | mineai/storage.py:196-200 | leaving the outermost transaction by failure restores every table; an inner failure restores nothing |
| Database.Storage.WriteAccounts | mineai/storage.py:314-318 | upserts exactly the given rows |
| Database.Storage.ApplyBlock | mineai/storage.py:296-321 | appends the block, indexes every entry and address, writes changes, undo rows and supply |
| Database.Storage.DisconnectTip | mineai/storage.py:362-384 | refused exactly for genesis or missing undo rows; otherwise restores the recorded rows and keeps the block as a side row |
| Database.Storage.AddSide | mineai/storage.py:387-394 | a stored side row is never overwritten |
| Database.Storage.MarkInvalid | mineai/storage.py:409-411 | exactly the listed stored rows turn invalid |
| Database.Storage.PruneSide | mineai/storage.py:417-426 | low rows go first, then the oldest beyond the count |
| Database.Storage.WalkHeaders | mineai/storage.py:333-354 | the cursor loop returns the walk of the definition, newest first |
| Database.Storage.MempoolForSender | mineai/storage.py:514-517 | a sender's pending transactions in nonce order |
| Database.Storage.MempoolList | mineai/storage.py:505-512 | every pending transaction once, by descending fee and then timestamp |
| Database.Storage.MempoolAdd | mineai/storage.py:491-499 | refused exactly when the id or the (sender, nonce) pair is taken |
| SideFacts.SidePruneFacts | mineai/storage.py:417-426 | pruning only forgets rows and forgets none while all are high and few enough |
| SideFacts.SidePruneExact | mineai/storage.py:417-426 | what is left is high enough, as many rows as the count allows, and no kept row is older than a dropped one of sufficient height |
| Connecting.ConnectExact | mineai/blockchain.py:520-543 | under the invariant a block on the tip connects if and only if it satisfies the state rules and is not from the future |
| Connecting.ChangesAreTransfers | mineai/blockchain.py:74-75 | overlaying only the touched rows is the same as performing every transfer and the payment |
| Connecting.ConnectKeepsInv | mineai/blockchain.py:520-543 | connecting keeps every table equal to its replay and appends exactly the validated block |
| Connecting.DisconnectUndoesConnect | mineai/storage.py:362-384 | connect then disconnect restores accounts, supply, both indexes, undo rows and tip, leaving the block as a side row |
| Connecting.SameRowsSameTables | mineai/storage.py:296-321 | the best chain determines every other chain table |
| Branches.ConnectPathFacts | mineai/blockchain.py:574-580 | a connected branch leaves a valid chain ending in its last block although difficulties are not checked again |
| Branches.DisconnectToFacts | mineai/blockchain.py:572-573 | rolling back gives the tables of the fork and adds exactly the rolled-back blocks as side rows |
| Branches.UndoInvertsConnect | mineai/storage.py:296-384 | connecting any number of blocks and disconnecting as many restores every table and leaves those blocks as side rows with unchanged work |
| Branches.SideWalkFacts | mineai/blockchain.py:548-560 | the collected branch is a chain of stored, valid side blocks with exact work, starting just above a block that is not a side row |
| MempoolFacts.AdmitKeepsPool | mineai/blockchain.py:322-342 | admission keeps both caps and one transaction per (sender, nonce), even in the middle of a reorganization |
| MempoolFacts.AdmittedQueue | mineai/blockchain.py:333-340 | an admitted transaction goes to the end of its sender's queue and no other queue moves |
| MempoolFacts.AdmitKeepsMemInv | mineai/blockchain.py:322-342 | admission keeps every queue gap-free and affordable |
| Admission.SubmitExact | mineai/blockchain.py:306-342 | a transaction is accepted if and only if it is well formed, stamped within the window on both sides of the clock, finds room, is next in line, and is covered by its sender's statement; it is refused with bad_timestamp if and only if it is well formed and outside that window |
| MempoolFacts.PruneEstablishes | mineai/blockchain.py:344-363 | pruning makes any capped pool satisfy the mempool invariant |
| MempoolFacts.PruneIdle | mineai/blockchain.py:344-363 | pruning removes nothing from a pool that satisfies the invariant |
| MempoolFacts.PendingNotConfirmed | mineai/blockchain.py:326-327 | no pending transaction is confirmed |
| MempoolFacts.RestoreEstablishes | mineai/blockchain.py:365-382 | after a reorganization the mempool invariant holds again and nothing but the pool changed |
| RestoreFacts.RestoreReturns | mineai/blockchain.py:365-381 | when a sender's outstanding disconnected transactions continue its nonce, nothing of it stays pending if something else of it was, and otherwise all of them return as soon as funds and room allow |
| ReorgReturns.ChainClimbs | mineai/blockchain.py:62-70 | the transactions of a sender in the last blocks of a chain, above any nonce it had before them, are numbered without a gap up to its nonce |
| ReorgReturns.SwitchContinues | mineai/blockchain.py:566-596 | after a switch the disconnected transactions above the sender's new nonce continue it, none is confirmed by the new branch, and all come before what the sender has pending |
| ReorgReturns.ReorganizeReturns | mineai/blockchain.py:365-381 | after any successful reorganization the still valid disconnected transactions of a sender are pending if and only if it had nothing else pending (given funds and room); otherwise nothing of it is pending; nothing foreign enters the pool |
| ReorgReturns.ReorganizeKeepsPending | mineai/blockchain.py:344-382 | when the new branch confirms at least as many of a sender's transactions, its pending ones up to the new nonce are gone; if one of those was in conflict and costs more than the sender can spend, the rest goes too; otherwise exactly the longest affordable front part of the rest stays |
| LostOnReorg.ValidTransactionIsLost | mineai/blockchain.py:365-381 | a run from genesis whose reorganization leaves the mempool empty although a disconnected transaction is accepted when submitted again |
| RestoreFacts.FirstStaysOut | mineai/blockchain.py:333-335 | while a sender has later nonces pending, its next nonce is never re-admitted |
| NodeFacts.ExtendTipKeeps | mineai/blockchain.py:508-518 | extending the tip appends exactly that block, raises the work by its difficulty and re-establishes every invariant |
| NodeFacts.ReorganizeSucceeds | mineai/blockchain.py:546-596 | exactly the blocks above the fork leave, at most max_reorg_depth of them, and the stored branch is the best chain above it |
| NodeFacts.RefusedReorganizeLeavesNoTrace | mineai/blockchain.py:582-588 | chain, accounts, supply, indexes, undo rows and mempool are as before; exactly the failing block and those after it on the branch turn invalid, none for bad_timestamp or when nothing was attempted |
| NodeFacts.ReorganizeRaisesWork | mineai/blockchain.py:546-596 | the new tip work is exactly the stored work of the branch, and the chain is unchanged when it did not succeed |
| NodeFacts.ProcessMovesUp | mineai/blockchain.py:470-473 | the best chain changes only on extension or reorganization, and then to strictly more work; equal work never switches |
| NodeFacts.ProcessKeeps | mineai/blockchain.py:463-506 | whatever the block, the invariants survive, tip work does not fall and at most that block joins the orphans |
| NodeFacts.HousekeepingExact | mineai/blockchain.py:598-600 | housekeeping keeps the rows within max_reorg_depth + 1 of the tip, at most max_side_blocks of them, and drops of those none that is higher or, at equal height, later received than one it keeps |
| NodeFacts.OrphansMakeRoom | mineai/blockchain.py:603-606 | a new orphan is the newest; only a full pool gives up an orphan, its oldest |
| NodeFacts.CondemnedRefused | mineai/blockchain.py:466-486 | a block known to be invalid, and a new block on top of one, are refused without a trace |
| Adoption.SiblingsApart | mineai/blockchain.py:608-618 | two children of one parent share no descendant, so queued subtrees never overlap |
| Adoption.QueueShrinks | mineai/blockchain.py:608-618 | each round of adoption makes the queue strictly lighter, so adoption terminates |
| Adoption.AdoptDepthFirst | mineai/blockchain.py:608-618 | what waits for the parents queued later, their descendants included, is settled before the parents queued earlier are looked at |
| Adoption.ChildrenInOrder | mineai/blockchain.py:612-614 | of two orphans waiting for one parent the earlier arrival is processed first |
| Adoption.ProcessBlockKeeps | mineai/blockchain.py:447-461 | processing a block and adopting its orphans keeps every invariant and never lowers tip work |
| Runs.ReplayRefinement | mineai/blockchain.py:145-181 | in every reachable state all chain tables are the replay of the best chain |
| Runs.WorkNeverFalls | mineai/blockchain.py:546-596 | over any run the tip work never falls |
| Runs.ReachableLedger | mineai/blockchain.py:134-135 | at every reachable state balances sum to the closed-form supply, every account is the statement of the best chain, balances cover the rewards still withheld and stay below the cap |
| Runs.ReachableMempool | mineai/blockchain.py:322-382 | at every reachable state each queue continues the confirmed nonce without a gap, costs no more than the balance beyond the rewards still withheld, is unconfirmed and within both caps |
| Rules.ReachableBlocks | mineai/consensus.py:227-262 | after any run every best-chain block names height and predecessor, hashes its header, meets its target as a product, declares the required difficulty, exceeds the median, commits to its ids, fits, and repeats no transaction of itself or an earlier block |
| Rules.ReachableTransactions | mineai/consensus.py:58-80 | after any run every confirmed or pending transaction is signed, pays at least the minimum fee, and moves a positive amount between two different well-formed addresses |
| Integrity.AuditTxs | mineai/blockchain.py:163-171 | the two dictionaries of the audit follow the transfers, and it stops at the first nonce gap or negative balance |
| Integrity.VerifyIntegrity | mineai/blockchain.py:145-181 | the audit accepts if and only if links, difficulties, work, transactions, coinbases, supply and accounts follow from the blocks |
| Integrity.InvariantPassesAudit | mineai/blockchain.py:145-181 | tables in the invariant pass the audit |
| Integrity.AuditNeverRaises | mineai/blockchain.py:138-181 | after any run the audit finds nothing |
| AuditFacts.AuditGuarantees | mineai/blockchain.py:145-181 | a clean audit of any database means: rows linked from genesis with required difficulties and summed work, minted supply of that height, no negative balance, and every account the statement of the stored blocks unless they never mention it |
| Universe.DigestFixesBlock | mineai/consensus.py:244-255 | two blocks with one hash, both valid on one ancestry, are the same block, coinbase included |
| Twins.TwinShape | mineai/consensus.py:251-255 | the well-formed blocks with a given digest are exactly the copies of one with another coinbase body of the same id and a size within the limit |
| Twins.TwinTakesPlace | mineai/blockchain.py:463-506 | a twin that arrives before a valid block takes its place, as side row or orphan, if and only if it would not extend the tip; the best chain does not move either way |
| Twins.TwinShutsOut | mineai/blockchain.py:466-475 | the valid block delivered after a twin that took its place is not taken in: the best chain does not move and the twin stays |
| Universe.UniverseGrows | mineai/blockchain.py:463-506 | a block valid on a branch of a valid set extends the set to a valid one |
| Universe.RowsDetermined | mineai/blockchain.py:520-543 | a best chain of blocks of the set is determined by its tip, stored derived columns included |
| Universe.BranchConnects | mineai/blockchain.py:574-580 | a stored branch of blocks valid on their own ancestry and on time connects to its end |
| RegimeFacts.ReorgRegime | mineai/blockchain.py:546-596 | a stored branch with more work whose blocks are on time is switched to if and only if it forks within the depth limit, and no block is lost from chain and side rows together while those off the new chain fit |
| Convergence.PlaceOutcome | mineai/blockchain.py:487-506 | a new block whose parent is stored is refused for depth if and only if its branch forks more than max_reorg_depth below the tip and either forks with this very block or would take over; otherwise it is kept |
| Convergence.ProcessRegime | mineai/blockchain.py:463-506 | while no limit is reached a valid block that is on time is never refused: it is known already, waits for its parent, or is kept |
| Convergence.IgnoredBlock | mineai/blockchain.py:463-477 | a block the node on course has heard of is a duplicate and a malformed one is refused, and neither changes anything |
| Convergence.AdoptRegime | mineai/blockchain.py:608-618 | adoption that reaches no limit adopts every orphan whose parent is stored, save those that were already left beside a stored parent, and forgets no block |
| Convergence.MineRegime | mineai/blockchain.py:426-444 | an accepted mined block keeps the node on course, and exactly the orphans that were waiting for it are left beside their stored parent |
| Convergence.FedRun | mineai/blockchain.py:426-618 | after any such run the node knows genesis and exactly the blocks it received, and the orphans with a stored parent are exactly those left behind by mining |
| Convergence.LeftBehindForGood | mineai/blockchain.py:463-475 | an orphan left behind once is an orphan, and not stored, after every continuation of the run that reaches no limit and does not submit that very block as mined |
| Convergence.RunStores | mineai/blockchain.py:426-618 | with all blocks handed over, stored are exactly those that do not descend from one left behind, none of them has more work than the tip, and orphans remain if and only if some were left behind |
| Convergence.ClockedIsPunctual | mineai/blockchain.py:527-529 | with a clock that never goes back it is enough that every delivered block is on time at its own delivery |
| Convergence.Converges | mineai/blockchain.py:426-618 | for every order of deliveries and mining that reaches no limit of the node, the heaviest block is the tip, its ancestry the best chain and no orphan left if and only if none was left behind by mining; the heaviest is the tip if and only if it does not descend from one left behind |
| Convergence.NodesAgree | mineai/blockchain.py:447-618 | two nodes fed the same blocks in any two orders, delivered or mined, neither leaving the heaviest block behind, agree on the best chain and every table it determines |
| Convergence.AcceptedBlockGrows | mineai/blockchain.py:426-444 | any block such a node accepts from its miner can be added to its set, so the sets are what honest nodes produce |
| StaticLimits.SmallReachesNoLimit | mineai/blockchain.py:598-606 | no run fed from a set that fits among side rows and orphans and never lags by the depth limit reaches a limit |
| StaticLimits.ChainReachesNoLimit | mineai/blockchain.py:494-518 | a chain delivered in order, however long, reaches no limit: it is the best chain and nothing else is stored |
| StaticLimits.SmallConverges | mineai/blockchain.py:447-618 | for such a set every order converges if and only if mining left no orphan behind, with no condition on the run but the clock |
| StrandedOnMine.HeavierIsLeftOut | mineai/blockchain.py:426-444 | a run from genesis - an orphan delivered, then its parent mined - ends on the lighter chain with the heavier block among the orphans, and delivering either again is a duplicate that changes nothing |
| Deliveries.RefusedForTime | mineai/blockchain.py:452-461 | a block whose branch is refused with bad_timestamp stays as a side row, nothing is adopted, exactly the orphans waiting for it are left beside it, and its next delivery attempts the switch again |
| Convergence.EmptyUniverse | mineai/blockchain.py:111-123 | a fresh node starts on course, with the empty set of blocks |
| Template.Pass | mineai/blockchain.py:399-410 | one pass keeps the selection applicable; without progress nothing deferred can be applied |
| Template.SomeApplicable | mineai/blockchain.py:398-410 | while something is left some remaining transaction can be applied now |
| Template.SelectTxs | mineai/blockchain.py:394-410 | the fixpoint loop terminates and selects exactly min(mempool size, max_regular_txs_per_block), each sender from the front of its queue, in the order of rounds and of the listing by fee, leaving out nothing that comes before something selected |
| Priority.PriorityDetermines | mineai/blockchain.py:396-410 | that order leaves no choice: two selections of one size from one listing are equal |
| Template.SinglesByFee | mineai/storage.py:505-512 | when no sender has more than one transaction pending, exactly the first of the listing by fee are selected, in that order |
| TemplateFacts.LeftOutPaysLess | mineai/blockchain.py:396-408 | a sender's next transaction is left out only of a full template, none of whose transactions pays less, nor as much with a later timestamp |
| TemplateFacts.TemplateStamp | mineai/blockchain.py:419-419 | the timestamp is the earliest one not before the clock that the median admits |
| TemplateFacts.MiningTemplate | mineai/blockchain.py:385-423 | refused exactly for a malformed miner address; otherwise a complete template for the tip, the higher fees first, with the whole reward to the miner |
| TemplateFacts.TemplateAccepted | mineai/blockchain.py:426-444 | solved, it is accepted on the same state if and only if its timestamp is not too far ahead, at the same clock if and only if mtp < now + max_future_seconds |
| TemplateFacts.TemplateKeepsPool | mineai/blockchain.py:344-363 | connecting it removes exactly the selected transactions from the mempool |
| Locator.LocatorHeights | mineai/blockchain.py:211-221 | the loop produces the closed form: ten consecutive heights, then doubling gaps, cut to 32 |
| Locator.LocatorShape | mineai/blockchain.py:211-221 | heights fall strictly from the tip, number at most 32, and reach genesis if and only if the tip is at most 2^23 + 7 |
| Locator.BlocksAfterLocator | mineai/blockchain.py:223-231 | a contiguous run after the first listed hash on the chain, from height 1 if there is none |
| Locator.ReplyStart | mineai/blockchain.py:211-231 | the reply starts at a shared block: the fork itself up to 9 blocks deep, fewer than d - 7 below it up to 2^23 + 7, genesis beyond |
| FuturePool.ReleaseLeavesFuture | mineai/p2p/node.py:596-613 | releasing terminates and leaves only transactions ahead of their sender's next nonce |
| FuturePool.OnTxKeeps | mineai/p2p/node.py:513-594 | the holding pool stays keyed by id and within its global bound, and no sender ever has more than its share held |
| FuturePool.ReleaseBounded | mineai/p2p/node.py:596-613 | releasing keeps the ids unique, the global bound and the share of every sender |
| FuturePool.ParkExact | mineai/p2p/node.py:576-594 | a transaction is held if and only if the address is well formed, the nonce is ahead of the next one, and fewer than the limit of its sender are held unexpired; apart from it exactly the unexpired entries stay, save that a full pool gives up the oldest |
| FuturePool.OrderSorted | mineai/p2p/node.py:601-601 | the retries of one sender go by nonce |
| Relaying.HeldExactly | mineai/p2p/node.py:513-534 | a transaction relayed for the first time ends up held if and only if it is well formed, in the window, finds room in the pool, is ahead of its turn, and its sender has less than its share held |
| Relaying.OnTxRemembers | mineai/p2p/node.py:521-524 | a malformed transaction changes nothing; a well-formed one that is refused is remembered |
| OutOfOrder.SubmitInSeries | mineai/p2p/node.py:520-525 | the next in line is admitted and one further ahead is refused for its nonce and nothing else |
| OutOfOrder.OrderDoesNotMatter | mineai/p2p/node.py:513-613 | any permutation of consecutive affordable transactions of one sender, at most one more than may be held, ends with all pending; what stays held is exactly what was held of other senders, all of it still waiting for its turn |
| OutOfOrder.SubmitWaiting | mineai/p2p/node.py:600-613 | while the series is admitted, a retry of another sender's waiting transaction is refused for its nonce and nothing else |
| Machine.Blockchain.constructor | mineai/blockchain.py:111-123 | a fresh node holds genesis and satisfies every invariant |
| Machine.Blockchain.ComputeExpectedDifficulty | mineai/blockchain.py:97-108 | walks, reverses and retargets, refusing on incomplete ancestry |
| Machine.Blockchain.MedianNow | mineai/blockchain.py:527-527 | the median of the newest timestamps, read newest first |
| Machine.Blockchain.Connect | mineai/blockchain.py:520-543 | the same refusal as the definition with nothing written, or exactly its tables |
| Machine.Blockchain.Admit | mineai/blockchain.py:322-342 | the same refusal as the definition in the same order, or exactly its pool |
| Machine.Blockchain.PruneMempool | mineai/blockchain.py:344-363 | the loops over senders and queues drop exactly what the definition drops |
| Machine.Blockchain.RestoreMempool | mineai/blockchain.py:365-382 | removes what the new branch confirmed, re-admits oldest first, then prunes |
| Machine.Blockchain.Housekeeping | mineai/blockchain.py:598-600 | prunes side rows by the tip height and the count |
| Machine.Blockchain.ExtendTip | mineai/blockchain.py:508-518 | block, state and mempool change together or not at all |
| Machine.Blockchain.WalkSide | mineai/blockchain.py:548-560 | the cursor loop collects the branch of the definition or stops at an invalid row |
| Machine.Blockchain.DisconnectDown | mineai/blockchain.py:572-573 | disconnects down to the fork, newest first |
| Machine.Blockchain.ConnectBranch | mineai/blockchain.py:574-580 | connects the branch in order or reports the failing index and code |
| Machine.Blockchain.Switch | mineai/blockchain.py:566-596 | one transaction: on failure the tables are those before it, apart from the verdicts |
| Machine.Blockchain.Reorganize | mineai/blockchain.py:546-596 | the same outcome and state as the definition, with every early refusal |
| Machine.Blockchain.Process | mineai/blockchain.py:463-506 | the same outcome and state as the definition for every kind of block |
| Machine.Blockchain.AddOrphan | mineai/blockchain.py:603-606 | keeps the newest orphans within the cap |
| Machine.Blockchain.AdoptAll | mineai/blockchain.py:612-618 | processes waiting children in order, dropping refused ones and queueing the rest |
| Machine.Blockchain.AdoptOrphans | mineai/blockchain.py:608-618 | the queue loop does what the definition does, last queued parent first |
| Machine.Blockchain.ProcessBlock | mineai/blockchain.py:447-461 | the same outcome and state as the definition, every invariant kept |
| Machine.Blockchain.SubmitTransaction | mineai/blockchain.py:306-320 | stateless checks first, then admission with the timestamp window |
| Machine.Blockchain.SubmitMined | mineai/blockchain.py:426-444 | the strict path: structure and difficulty, then stale, then the tip is extended |
| Machine.Blockchain.ProposeBlock | mineai/blockchain.py:385-423 | a template on the current tip from the listed mempool |
| Machine.Blockchain.BuildLocator | mineai/blockchain.py:211-221 | the hashes at the locator heights |
| Machine.Blockchain.Audit | mineai/blockchain.py:138-143 | after any sequence of calls the audit reports nothing |
| RelayNode.TxRelay.ParkFutureTx | mineai/p2p/node.py:576-594 | held only when ahead and within both bounds, expired entries dropped first |
| RelayNode.TxRelay.RetryHeld | mineai/p2p/node.py:600-613 | one pass admits, keeps waiting, or drops each held transaction in order |
| RelayNode.TxRelay.ReleaseFutureTxs | mineai/p2p/node.py:596-613 | the while-progress loop terminates in the state of the definition |
| RelayNode.TxRelay.OnTx | mineai/p2p/node.py:513-534 | seen ones ignored, admitted ones trigger a release, bad_nonce may be held |
| Encoding.U64Reads | mineai/crypto.py:45-48 | eight bytes, the most significant first, read back as the number |
| Encoding.ReadsText | mineai/crypto.py:51-56 | a length-prefixed text is read back with whatever follows |
| Encoding.ReadsBody | mineai/crypto.py:108-111 | the signing payload is read back field by field |
| Encoding.ParseInvertsEncode | mineai/crypto.py:108-147 | one parser reads back signing payloads, transaction and coinbase preimages, headers, allocations and Merkle preimages |
| Encoding.EncodingsDistinct | mineai/consensus.py:127-136 | no two different objects, of one family or two, of one network or two, share a hash input |
| Encoding.AllocationCommitment | mineai/consensus.py:203-212 | two profiles commit to the same bytes if and only if they allocate the same amounts to the same addresses, in any listed order |
| TextOrder.TextBeforeIs | mineai/consensus.py:203-212 | listings are sorted by the first characters that differ, a text before its extensions |
| Amount.ParsePrinted | mineai/util.py:18-44 | printing and parsing back is the identity for every amount from 1 to 2^63 - 1 |
| Amount.ParseIs | mineai/util.py:18-36 | digits, or digits, a point and up to six digits, parse to whole times 10^6 plus the fraction filled up to six places |
| Amount.PrintParsed | mineai/util.py:18-44 | printing a parsed decimal drops exactly the superfluous zeros |
| Profiles.ShippedProfilesSuitable | mineai/config.py:92-189 | every shipped profile passes the start-up guards, has an odd median window, and a count limit that implies the byte limit |
| Profiles.SupplySchedule | mineai/config.py:92-107 | on devnet the cap is reached exactly at height four million, and below it supply is height times the reward |

## Left out

- SQLite itself (migrations, write-ahead log, JSON columns, corruption checks): only the contents of the tables and all-or-nothing commits are modelled.
- Ed25519, SHA-256, scrypt, AES-GCM, base32 and base64: uninterpreted functions and free digests; keys and signatures are raw bytes in the encodings.
- The individual structural refusal codes (bad_fields, bad_type, out_of_range, bad_merkle, bad_pow and the like) are one code `BadStructure`, in the order of the other checks; a coinbase is always a record with the seven fields.
- The txid tie order of the mempool listing: two transactions of equal fee and timestamp may be listed either way, and every result holds for both.
- Which of two side rows of equal height and arrival time is pruned first: insertion order is taken, where SQL leaves it open.
- The network id is not part of the digests of the state machine, since one run belongs to one network; `Encoding` has it in every preimage.
- Median of an even number of timestamps: the mean is floored exactly, where the program goes through a float and rounds above 2^53; the timestamps of the falling chains of `MedianEven` stay below that for every window up to 2^53.
- Timestamps of held transactions are real numbers; rounding of the monotonic clock is not modelled.
- Database.Storage.PruneSide: the two SQL deletions are single steps, not loops.
- RelayNode.TxRelay.OnTx: does not model peers, penalties, broadcasts and metrics, because they do not change what is held or pending.
- Convergence.Converges: the runs do not hand an orphan that was left behind to the strict path as if it were mined here; there it would be stored and stay among the orphans as well.
- Convergence.LeftBehindForGood: for the same runs only, so that submitting the orphan itself as mined remains a way out.
- FuturePool.OnTxKeeps: the seen cache is bounded as in the program, but its eviction is not part of any claim.
- Sockets, handshake, peer dialing, bans, block relay, synchronization liveness, HTTP interface, explorer, wallet, miners, logging and configuration loading.
- Address history, hashrate estimates and other read helpers: one query each.

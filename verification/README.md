# podseq: verified models of the rollup node's protocols

podseq builds EVM blocks, publishes them in batches to Walrus, settles their heights on Sui, bridges
coins both ways, and lets full nodes follow from the settled data. Five of its components are state
machines that must survive crashes, lost calls, retries and interleaving. Each is modelled here as a
step function over values, with its faults as inputs, and, where the program changes things in place,
as a class whose methods are proved to take exactly those steps. The theorems are about every run.

| file | models |
|---|---|
| `FullNode.dfy`, `ExecutionEngine.dfy` | a full node's fork choice over an Engine API client: optimistic p2p blocks, settled DA blocks, halt gate, restarts |
| `Deadline.dfy` | the force-inclusion inbox contract and the monitor that reads it in four round trips while it changes |
| `Wire.dfy` | the DA batch codec over Binary Canonical Serialization |
| `PendingStore.dfy`, `Sorted.dfy` | the sorted vector of unsettled heights |
| `Finalizer.dfy`, `FinalizerTask.dfy` | the finalizer: channel, batch, flush timer, publish, ordered settle, finalize, markers, crash recovery |
| `SettlementStall.dfy`, `SettlementRecovery.dfy` | crashes after which the finalizer never settles again, and exactly when a restarted one can |
| `DaRoundTrip.dfy` | the sequencer's and the full node's ends of the DA layer joined |
| `BridgeDeposits.dfy` | deposits minted on L2, with late-landing transactions and older cursors |
| `TokenRegistry.dfy`, `BridgeWithdrawals.dfy` | the token registry, its snapshot and its scan; burns released on Sui |
| `BridgeConservation.dfy` | both bridge directions joined with the token ledgers and the vault |
| `InboxTracker.dfy` | the sequencer's inclusion tracker, settlement gate and settle cursor |
| `ForceInclusion.dfy` | inbox contract, tracker, built blocks and settles joined |
| `Rotation.dfy` | key rotation: the two on-chain records, the watcher's three reads, its late transactions, the signers |
| `Wrappers.dfy` | options, results, network outcomes, saturating addition |

Remote calls, disk writes, clocks and other parties are inputs: `Net` says whether a call is delivered,
never arrives, or runs with its answer lost, and functions such as `nat -> Io` give each call its
outcome. Hashes and blob ids are uninterpreted; `CollisionFree` is assumed where it matters. On-chain
effects follow the contracts in `move/sources/` and `solidity/src/`.

A straight-line method, such as `FullNode.Mark` or `Watcher.Swap`, mirrors its step function and only ties
the fields to it. The methods with loops (`SyncHeights`, `FlushBatch`, `RecoverPending`, `Scan`,
`PollStatus`, `RelayDeposits`, `SyncInbox` and others) are where the in-place form needs a proof of its own.
Lemmas whose names end in `Exactly` say of one operation when it succeeds and what it leaves, in terms of the
chain, the file or the bytes on the wire; the theorems over runs rest on the same step functions.

## What the proofs found

Where the code and its comments or documents disagree, the model follows the code.

- **Mints.** `solidity/src/Bridge.sol:118-123` takes nonce 0 as the first mint of every token, and
  deposit nonces are shared by all coins. A deposit can be minted exactly when it and every deposit
  before it are of the very first deposit's coin and have a usable recipient; the relayer stops for
  good at the first that is not (`MintedIffMintable`). `solidity/README.md:48-50` says gaps are allowed.
- **Re-settling.** `crates/node/src/runner.rs:549-561` puts a settled block back when its finalization
  fails. Sui takes it again exactly when it is published in the same batch as before
  (`PutBackResettles`). So a crash between a settle and the removal of its marker stops settlement for
  good unless the restart can publish that batch again (`CrashAfterSettleExactly`,
  `CrashOnSecondBlockStalls`); so does a marker that could not be removed (`LostMarkerStalls`), and so does a
  gap, as left by a crash between `crates/node/src/runner.rs:312` and `:329` (`HeadDecides`).
  `SettlesAgainExactly` says of every journal whether a start on it can settle again.
- **Violation alarm.** `crates/sui/src/deadline.rs:22-25` calls it unreachable. A block stamped ahead of
  the clock by more than a window, then a submit, reaches it; the exact condition is `GateKeptExactly`.
- **Gate.** The early break of `crates/node/src/inbox.rs:350-353` is exact if and only if the first
  submitted nonce has the earliest deadline, which holds while the deadline heights handed out do not
  decrease (`EarlyBreakExact`, `GateIsExact`, `DecreasingAnchorHidesOverdue`).
- **Settle cursor.** It is a count. Included out of order, it passes a nonce that never landed, and the
  inbox drops that entry (`OutOfOrderRunDropsEntry`). In order it never does (`CursorNeverPassesMissing`),
  but after a lost marker file it stays behind for good, and the chain halts over a transaction that did
  land (`ForgottenInclusionHaltsChain`; the exact condition is `LostMarkersRefuseExactly`).
- **Full-node start.** Without a readable `state.json` the node takes the engine's head for settled
  (`BootIsSound`, `AnnounceThenRestart`, `LostStateTrustsOptimisticHead`).
- **Rotation.** The watcher reads two records and the clock one after the other. A claim whose answer was
  lost and that lands between the reads makes it refuse, although the authority is its own key throughout
  (`MisconfiguredExactly`, `TornClaimRefuses`). A restart after the retire keeps a key that may not act
  (`RetiredNodeStaysLocked`), also when the retire of the earlier process lands after the restart
  (`StaleRetireLocksOut`). A relayer client built before the swap and shared after it keeps the old key
  although `crates/node/src/rotation.rs:214-217` says otherwise (`BridgeFollowsUnlessRaced`).
- **Vault.** The check of `move/sources/bridge.move:203-205` never fails for a real burn (`VaultNeverShort`).

## Model

| member | source | states |
|---|---|---|
| FullNode.SettledPrefixSurvives | crates/node/src/full_node.rs:155-443 | in every run of p2p blocks of any kind, sync passes, failed calls, engine progress and restarts, the engine's chain equals the settled chain up to `synced_height`, and `finalized` is the settled block there |
| FullNode.CanonicalExecutes | crates/node/src/full_node.rs:336-443 | in every such run, whatever blocks are announced, every canonical block above genesis executes, above the settled heights too |
| FullNode.StepKeepsInv | crates/node/src/full_node.rs:193-208 | each tick, engine-side progress and restart keeps that invariant, and only a restart moves `synced_height` back |
| FullNode.ForkchoiceKeepsInv | crates/node/src/full_node.rs:336-416 | no fork choice carrying the settled block as finalized can leave the settled chain, whatever its head |
| FullNode.ApplyKeepsInv | crates/node/src/full_node.rs:336-373 | applying any block, forged or gapped, with any failure, keeps the settled prefix and `synced_height` |
| FullNode.ApplyNextSettled | crates/node/src/full_node.rs:336-373 | applying the next settled block without a failed call succeeds and puts it on the canonical chain |
| FullNode.MarkKeepsInv | crates/node/src/full_node.rs:375-416 | marking the next settled block finalized keeps the invariant even though the fields change before the engine answers |
| FullNode.FinalizeKeepsInv | crates/node/src/full_node.rs:419-443 | applying and finalizing the next settled block keeps the invariant and moves at most to its height |
| FullNode.SyncKeepsInv | crates/node/src/full_node.rs:218-276 | a sync pass keeps the invariant, never passes the settled tip, and reaches it if it succeeds |
| FullNode.BootIsSound | crates/node/src/full_node.rs:155-186 | a start is sound if and only if a fork choice was persisted or the engine's head is settled |
| FullNode.LossAtTipIsSound | crates/node/src/full_node.rs:155-186 | for a node synced to the settled tip the loss of its state file is harmless if and only if the engine's head is no higher than what it had synced |
| FullNode.AnnounceThenRestart | crates/node/src/full_node.rs:155-186 | without a state file, a node that restarts after any announced block it could apply has that block finalized |
| FullNode.LostStateTrustsOptimisticHead | crates/node/src/full_node.rs:167-186 | a run that ends with an unsettled block finalized after the state file is lost |
| FullNode.FlawlessPassProgresses | crates/node/src/full_node.rs:218-276 | from any reachable state, whatever optimistic head it is stuck on, a pass without failed calls moves forward |
| FullNode.FlawlessPassesCatchUp | crates/node/src/full_node.rs:218-276 | as many such passes as there are heights left reach the settled tip |
| FullNode.OnePassReachesTip | crates/node/src/full_node.rs:218-276 | a node that runs on settled blocks alone reaches the settled tip in one such pass, with each blob fetched once for the heights in a row it holds; with nothing to sync, or no answer from the registry, a pass changes nothing |
| FullNode.AnnouncedBecomesHead | crates/node/src/full_node.rs:292-373 | an unpaused tick with nothing to sync puts an announced signed block, at any height above `synced_height`, on the canonical chain as the head, if its parent is known and it descends from the finalized block |
| FullNode.BadAnnounceChangesNothing | crates/node/src/full_node.rs:292-333 | a stale, missing or unsigned block leaves the node as it was |
| FullNode.RunsAhead | crates/node/src/full_node.rs:292-373 | so a node follows announced blocks any number of heights ahead of settlement |
| FullNode.HaltedTickChangesNothing | crates/node/src/full_node.rs:193-208 | a reading that reports an overdue lowest pending transaction stops the tick before it does anything; any other reading changes nothing of what the tick does |
| FullNode.FailedReadingPausesNothing | crates/node/src/full_node.rs:617-641 | a tick whose reading failed is a tick without a reading |
| FullNode.ForkchoiceExactly | crates/node/src/full_node.rs:336-416 | a fork choice moves the canonical head exactly to a known head that descends from the finalized and the safe block; the answer is good exactly when it arrives and refuses neither |
| FullNode.MarkSaves | crates/node/src/full_node.rs:375-416 | finalizing sets the node at once and its file exactly after a good answer and a good write; a restart from that file goes on where the node is |
| FullNode.BootResumes | crates/node/src/full_node.rs:155-186 | a start from a file that holds the fork choice goes on from it |
| FullNode.UnusableHeightChangesNothing | crates/node/src/full_node.rs:218-276 | a height not settled, not readable, not in its blob or not signed stops the pass and changes nothing |
| FullNode.PresentBlockIsOnlyFinalized | crates/node/src/full_node.rs:419-443 | a settled block the engine has at its height is not submitted again; any other is applied first, and finalized only if that succeeds |
| FullNode.HaltGate.Update | crates/node/src/full_node.rs:617-641 | pauses exactly on a confirmed halt; a failed or unconfirmed read never pauses and keeps the last status |
| FullNode.FullNode.constructor | crates/node/src/full_node.rs:155-186 | a start takes the persisted fork choice, else the engine's head |
| FullNode.FullNode.SendForkchoice | crates/node/src/full_node.rs:336-416 | one fork choice call has the engine's effect of the specification, lost answers included |
| FullNode.FullNode.Apply | crates/node/src/full_node.rs:336-373 | the apply step proved safe above |
| FullNode.FullNode.Mark | crates/node/src/full_node.rs:375-416 | the mark step proved safe above |
| FullNode.FullNode.ApplyAndMark | crates/node/src/full_node.rs:419-443 | a block already canonical is only finalized, any other is applied first |
| FullNode.FullNode.SyncHeights | crates/node/src/full_node.rs:241-276 | the loop with its blob cache does what looking every height up afresh does |
| FullNode.FullNode.SyncFromSettlement | crates/node/src/full_node.rs:218-276 | a pass with nothing to sync, or without an answer, stops before the loop |
| FullNode.FullNode.PollPeers | crates/node/src/full_node.rs:292-333 | a signed block above the synced height is applied, any other ignored; `AnnouncedBecomesHead` and `BadAnnounceChangesNothing` say with what effect |
| FullNode.FullNode.OnTick | crates/node/src/full_node.rs:193-208 | a paused node changes nothing; a failed sync does not hold up p2p |
| ExecutionEngine.AncestorsAgree | crates/node/src/full_node.rs:419-443 | two chains with a common block agree below it |
| ExecutionEngine.AncestorKnown | crates/node/src/full_node.rs:336-373 | every ancestor of a validated block is validated |
| Deadline.PollStatus | crates/sui/src/deadline.rs:203-243 | a poll whose first reads straddle no settle and do not fail returns a halt if and only if the lowest pending nonce is overdue by more than the margin at its clock read, naming it and its deadline; any halt returned is true of one real chain state; it gives up only after a settle in every attempt |
| Deadline.VerdictReports | crates/sui/src/deadline.rs:123-151 | a verdict is a halt if and only if the lowest pending nonce has a deadline that, with the margin, is before the clock; it names that nonce and deadline, and it is a violation if and only if the settlement witness is after the deadline |
| Deadline.SubmitThenWaitHalts | crates/sui/src/deadline.rs:123-151 | a transaction submitted to an empty inbox halts the monitor exactly once the wait is over its window and the margin |
| Deadline.ConfirmedHaltIsReal | crates/sui/src/deadline.rs:123-243 | reads at four instants with cursor and witness unchanged classify as the chain did at the second |
| Deadline.RunIsLater | move/sources/inbox.move:343-365 | over any submits and settles cursor, witness and clock never move back and pending deadlines stay |
| Deadline.GateKeptExactly | move/sources/inbox.move:343-365 | an action keeps the settlement witness at or before the oldest deadline unless it is a submit into an empty inbox that is due before the last settled stamp |
| Deadline.NoViolationInTime | crates/sui/src/deadline.rs:22-25 | with blocks stamped at most one smallest window ahead of the clock the violation alarm never rings |
| Deadline.ViolationWithoutFault | crates/sui/src/deadline.rs:22-25 | a run of the contract that rings it |
| Deadline.StampsAgainstClock | crates/node/src/runner.rs:282 | block stamps gain a second a block however little the clock moves, and follow the clock while it gains one between blocks |
| Wire.DecodeInvertsEncode | crates/sui/src/wire.rs:52-84 | decoding an encoded non-empty batch gives the batch, signatures included |
| Wire.EncodeInvertsDecode | crates/sui/src/wire.rs:68-84 | bytes that decode are non-empty batches and re-encode to the same bytes |
| Wire.DecodeAcceptsExactly | crates/sui/src/wire.rs:68-84 | a well-formed blob is accepted if and only if it is non-empty and every signature is absent or 64 bytes |
| Wire.EncodeInjective | crates/sui/src/wire.rs:52-66 | distinct batches have distinct encodings |
| Wire.UlebRoundTrip | crates/sui/src/wire.rs:52-66 | BCS lengths parse back to themselves |
| Wire.UlebCanonical | crates/sui/src/wire.rs:68-84 | a length that parses is the encoding of its value and of no other form |
| Wire.BlockSurvivesWire | crates/sui/src/wire.rs:22-49 | a block survives the conversion to its wire form and back |
| Wire.BlockLayout | crates/sui/src/wire.rs:13-66 | an encoded block is height, parent hash, state root and timestamp at fixed offsets, numbers little-endian, then the data after its length, then the signature after its tag and length |
| Wire.BatchLayout | crates/sui/src/wire.rs:52-66 | an encoded batch is the LEB128 count of its blocks, then the blocks in order |
| Wire.UlebDigits | crates/sui/src/wire.rs:52-66 | a length is its base-128 digits, lowest first, with a high bit on all but the last and none to spare |
| PendingStore.Slot | crates/node/src/store/pending_store.rs:68-84 | binary search finds the place that separates smaller heights from the rest |
| PendingStore.PendingStore.Mark | crates/node/src/store/pending_store.rs:68-75 | adds the height, keeps the vector sorted and free of repeats, idempotent |
| PendingStore.PendingStore.Clear | crates/node/src/store/pending_store.rs:77-84 | removes the height and nothing else, idempotent |
| PendingStore.PendingStore.Pending | crates/node/src/store/pending_store.rs:86-88 | lists the pending heights in ascending order |
| Finalizer.RunKeepsInv | crates/node/src/runner.rs:368-573 | in every run with failures and crashes at any step: finalized, handed-over, batched and queued blocks are exactly those sent, in order; a settle is of the first block not finalized; a marker goes only right after its settle and finalization; the timer and the size estimate hold; settled heights are contiguous and each blob carries its block |
| Finalizer.StepKeepsInv | crates/node/src/runner.rs:368-455 | each select branch, each attempt of a flush, production and each crash keeps that |
| Finalizer.StepKeepsTimer | crates/node/src/runner.rs:42-67 | the timer is armed exactly while blocks are buffered, never later than the oldest block's arrival plus the interval, and the size estimate is never below the buffered total, up to saturation |
| Finalizer.TimerIsWholeInterval | crates/node/src/runner.rs:42-67 | over every run the armed timer is the arrival of the block that opened the batch plus the whole interval, through later arrivals, flushes by size, partial flushes and put-backs |
| Finalizer.TimerFlushesWhenDue | crates/node/src/runner.rs:393-455 | the timer branch starts a flush if and only if that whole interval has passed, and changes nothing before |
| Finalizer.FlushKeepsInv | crates/node/src/runner.rs:467-573 | publish and settle attempts, put-backs and shutdown keep every block in one place and the journal sound |
| Finalizer.PublishExactly | crates/node/src/runner.rs:487-514 | a publish attempt writes a blob exactly when shutdown is not seen, the batch encodes and the request arrives; it goes on to settle exactly when the answer arrives too |
| Finalizer.SettleAttemptExactly | crates/node/src/runner.rs:526-571 | a settle attempt registers the front block, finalizes it and takes its marker, each exactly when every step up to it succeeds, and writes nothing else |
| Finalizer.UnfinishedAttempt | crates/node/src/runner.rs:467-573 | an attempt that does not finalize keeps trying unless shutdown is seen or a finalization failed; then the batch is put back whole or handed to local finalization whole |
| Finalizer.StopsExactly | crates/node/src/runner.rs:393-455 | shutdown hands what is buffered to local finalization and stops; the end of the channel flushes it first |
| Finalizer.BusyOrStopped | crates/node/src/runner.rs:393-455 | a flushing or stopped finalizer takes no block and starts no flush |
| Finalizer.SettleExactly | move/sources/settlement.move:116-137 | a repeated settle is accepted exactly for the recorded blob and state root and changes nothing, a new one exactly for the next height, which it records |
| Finalizer.SoundDurable | crates/node/src/runner.rs:327-345 | what any sound journal leaves: pending heights are stored, settled heights run from 1 to the latest, and the blob of each decodes to a batch holding it |
| Finalizer.SoundPrefix | crates/node/src/runner.rs:327-345 | a crash at any point leaves a sound journal |
| Finalizer.StartRecovers | crates/node/src/runner.rs:651-705 | a start re-queues exactly the stored blocks of the pending heights, ascending, and drops no marker |
| Finalizer.RecoveryExactly | crates/node/src/runner.rs:651-705 | over any store, torn or not, recovery queues the blocks it can read and drops the markers of the others and of nothing else |
| Finalizer.MarkedIsPendingOrSettled | crates/node/src/runner.rs:549-561 | a height once marked is still marked or is settled, across all crashes |
| Finalizer.FlawlessFlush | crates/node/src/runner.rs:467-573 | a flush without failures settles and finalizes the whole batch |
| Finalizer.PutBackResettles | move/sources/settlement.move:116-137 | the retry of a block already settled is accepted if and only if its batch is the one published before |
| Finalizer.JournalGrows | crates/node/src/runner.rs:327-345 | nothing written is unwritten by any step |
| FinalizerTask.FinalizerTask.constructor | crates/node/src/runner.rs:651-705 | the finalizer starts in the recovered state |
| FinalizerTask.FinalizerTask.RecoverPending | crates/node/src/runner.rs:651-705 | the recovery loop queues and drops as specified |
| FinalizerTask.FinalizerTask.Produce | crates/node/src/runner.rs:327-360 | store, mark, send, in that order; a stopped finalizer gets nothing |
| FinalizerTask.FinalizerTask.PublishBatch | crates/node/src/runner.rs:487-514 | one publish attempt |
| FinalizerTask.FinalizerTask.SettleFront | crates/node/src/runner.rs:526-571 | one settle attempt with the finalization that follows it |
| FinalizerTask.FinalizerTask.FlushBatch | crates/node/src/runner.rs:467-573 | the publish loop and the settle loop amount to the attempts they meet, one after another |
| FinalizerTask.FinalizerTask.Receive | crates/node/src/runner.rs:415-433 | a received block arms the timer if it opens a batch and flushes past the size limit |
| FinalizerTask.FinalizerTask.FlushDeadline | crates/node/src/runner.rs:393-413 | the timer branch |
| FinalizerTask.FinalizerTask.Close | crates/node/src/runner.rs:434-450 | the last flush when production ends |
| FinalizerTask.FinalizerTask.Shutdown | crates/node/src/runner.rs:390-393 | buffered blocks are handed to local finalization |
| SettlementStall.RunKeepsMarkers | crates/node/src/runner.rs:549-561 | in every run each block sent and not finalized holds its marker |
| SettlementStall.StallIsForever | crates/node/src/runner.rs:526-545 | after a start whose lowest pending height leaves a gap, is behind the latest, or is the latest in a blob that starts elsewhere, nothing is settled or finalized again, restarts included |
| SettlementStall.CrashMidBatchStalls | crates/node/src/runner.rs:526-561 | a crash right after the settle of a block that is not first in its blob leads there |
| SettlementStall.CrashOnSecondBlockStalls | crates/node/src/runner.rs:467-573 | so does an otherwise faultless flush that crashes on its second block |
| SettlementRecovery.SettlesAgainExactly | crates/node/src/runner.rs:368-573 | for every sound journal: some run after a start on it settles a new height if and only if a first flush of the re-queued blocks can hold the next height first, or can hold the recorded batch of the latest height again with the next height following |
| SettlementRecovery.RecoverableSettles | crates/node/src/runner.rs:651-705 | one direction, by building the run: produce, receive, trigger, publish, settle, and restart if the recorded batch was one block |
| SettlementRecovery.HopelessRun | crates/node/src/runner.rs:467-573 | the other direction: otherwise no production, flush, put-back, shutdown or crash in any run raises the latest height |
| SettlementRecovery.HeadDecides | crates/node/src/runner.rs:651-705 | with a flush timer and a lowest pending height that is not the latest, a start can settle if and only if that height is the next one |
| SettlementRecovery.CrashAfterSettleExactly | crates/node/src/runner.rs:526-561 | after a crash between a settle and the removal of its marker settlement goes on if and only if the restart can publish that batch again and the next height follows |
| SettlementRecovery.LostMarkerStalls | crates/node/src/runner.rs:549-561 | a marker whose removal failed, one more settle and any restart end settlement |
| SettlementRecovery.TakesOnlyFirst | move/sources/settlement.move:116-137 | all the registry ever takes from a process that started on an unrecoverable journal is its first block again |
| DaRoundTrip.SettledIsLookedUp | crates/node/src/full_node.rs:246-275 | after any sequencer run a full node finds at each height the settled block if it is settled, and nothing otherwise |
| DaRoundTrip.FindReturns | crates/node/src/full_node.rs:266-275 | in a batch of distinct heights the first block at a height is the only one |
| BridgeDeposits.RunKeepsInv | crates/node/src/bridge.rs:313-431 | in every run of passes, failures, late landings and restarts from older cursors, the mint log is the mints of the first deposits in order, each on its coin's token, and the cursor never passes it |
| BridgeDeposits.MintedOnce | crates/node/src/bridge.rs:313-364 | no deposit is minted twice, and each below the cursor was minted once |
| BridgeDeposits.TotalsAgree | solidity/src/Bridge.sol:118-131 | each token's total minted is the sum of its coin's deposits below the minted frontier |
| BridgeDeposits.MintsExactly | solidity/src/Bridge.sol:118-126 | a mint not beyond the frontier executes if and only if it is the next one and its deposit is mintable |
| BridgeDeposits.GuardExactly | crates/node/src/bridge.rs:336-341 | with readable cursors the replay guard fires if and only if the deposit was minted |
| BridgeDeposits.GuardIsSound | crates/node/src/bridge.rs:336-341 | with any read failing the guard never skips a deposit that was not minted |
| BridgeDeposits.FlawlessPassReaches | crates/node/src/bridge.rs:313-364 | a pass without failures stops exactly at the first deposit of another coin or without a usable recipient, and saves its cursor |
| BridgeDeposits.SavedFileResolves | crates/node/src/bridge.rs:349-405 | after a pass that moves the cursor and whose saves succeed, a restart from its file resolves the coin of every deposit below the cursor to the token it was minted on, without the factory |
| BridgeDeposits.RelaySaves | crates/node/src/bridge.rs:349-356 | the file holds the moved cursor and the registry exactly when the deposit is passed over and the write succeeds |
| BridgeDeposits.RestartChangesNothing | crates/node/src/bridge.rs:349-356 | a restart right after such a step changes nothing |
| BridgeDeposits.RelayExactly | crates/node/src/bridge.rs:313-362 | whatever fails, a deposit is passed over exactly when its coin resolves and the guard sees it minted or its own mint, next in order and payable, is confirmed; a mint whose answer is lost waits in the pool |
| BridgeDeposits.EnsureExactly | crates/node/src/bridge.rs:369-405 | a coin resolves to its one token exactly when the registry holds it or the factory creates it and answers |
| BridgeDeposits.LandExactly | solidity/src/Bridge.sol:112-123 | a late transaction mints once, exactly when it is next and payable |
| BridgeDeposits.MintedIffMintable | solidity/src/Bridge.sol:112-123 | a deposit is minted in some run if and only if it lies before that one |
| BridgeDeposits.Relayer.ResolveToken | crates/node/src/bridge.rs:369-405 | the registered token, or one created through the factory |
| BridgeDeposits.Relayer.Mint | crates/node/src/bridge.rs:410-431 | only a confirmed execution counts as minted |
| BridgeDeposits.Relayer.RelayNext | crates/node/src/bridge.rs:324-362 | one deposit |
| BridgeDeposits.Relayer.RelayDeposits | crates/node/src/bridge.rs:313-364 | the loop moves only past deposits seen minted |
| TokenRegistry.FirstClaimWins | crates/node/src/bridge.rs:96-107 | a coin type belongs to the token created for it first |
| TokenRegistry.InsertKeepsInverse | crates/node/src/bridge.rs:96-107 | inserting keeps the two maps inverse if and only if the token is not claimed for another coin type |
| TokenRegistry.SnapshotRoundTrips | crates/node/src/bridge.rs:126-147 | a snapshot keeps every claim, and the registry's maps are inverse if and only if no two coin types share a token and the snapshot restores it |
| TokenRegistry.TokenRegistry.InsertToken | crates/node/src/bridge.rs:96-107 | answers whether the token is the canonical one |
| TokenRegistry.TokenRegistry.AbsorbCreations | crates/node/src/bridge.rs:714-747 | a batch of logs is one fold, undecodable ones skipped |
| TokenRegistry.TokenRegistry.Scan | crates/node/src/bridge.rs:749-808 | the narrowing scan ends under any failures; if it succeeds it is one fold over all logs up to the head, and if it fails a range of at most 39 blocks was refused |
| BridgeWithdrawals.RunKeepsInv | crates/node/src/bridge.rs:472-547 | in every run the registry in memory and on disk covers every creation below its cursor, releases are of burns of registered tokens and never repeat, and every canonical burn below the cursor is released except in blocks a start without a saved registry skipped |
| BridgeWithdrawals.ReleasedAsBurned | crates/node/src/bridge.rs:519-547 | such a burn is released once, with its own amount and recipient |
| BridgeWithdrawals.SavedNeverSkips | crates/node/src/bridge.rs:761-777 | once a registry is saved no restart skips a block |
| BridgeWithdrawals.FlawlessPassReaches | crates/node/src/bridge.rs:472-516 | a pass without failures releases every burn up to the head it read and saves cursor and registry together |
| BridgeWithdrawals.FoldCovers | crates/node/src/bridge.rs:714-747 | under the factory's rule absorbing logs adds exactly what they name |
| BridgeWithdrawals.BurnsExactly | crates/node/src/bridge.rs:825-850 | the filtered log query returns exactly the burns of registered tokens in the range |
| BridgeWithdrawals.ReleaseExtends | move/sources/bridge.move:188-219 | releasing a range adds releases of logged burns only, none twice |
| BridgeWithdrawals.ReleaseStopsAtFirst | crates/node/src/bridge.rs:492-506 | the burns of a range are released in order up to the first call not confirmed, that one too if only its answer was lost, and none after it |
| BridgeWithdrawals.PassExactly | crates/node/src/bridge.rs:472-516 | a pass moves cursor and file to the end of its range exactly when no token is known or every burn of the range was read and released |
| BridgeWithdrawals.RestartChangesNothing | crates/node/src/bridge.rs:749-777 | a restart from a file just written changes nothing |
| BridgeWithdrawals.RescanSkipsExactly | crates/node/src/bridge.rs:749-777 | a restart without a saved registry learns every creation up to the head it reads and skips exactly the blocks from the saved cursor to that head |
| BridgeConservation.CoinsAreConserved | move/sources/bridge.move:111-219 | in every run of both directions, what is locked of a coin is what was released, plus what is burned and unreleased, plus what its token has outstanding, plus what waits to be minted, and the token's supply is what its holders hold |
| BridgeConservation.VaultNeverShort | move/sources/bridge.move:188-219 | in every run the vault releases a real burn, or has released it already; its liquidity and zero checks never refuse one |
| BridgeConservation.VaultRefusesExactly | move/sources/bridge.move:188-219 | the vault aborts exactly a release not made yet that is of nothing or exceeds what it still holds |
| BridgeConservation.RunKeepsInv | solidity/src/Bridge.sol:118-162 | mints, transfers, burns, relays, late landings and restarts keep both directions' invariants and each ledger equal to its mints less its burns, numbered from 1 |
| BridgeConservation.DepositsRefine | crates/node/src/bridge.rs:313-364 | in every joined run the deposit direction goes through a run of its own, so what is proved of that one holds here |
| BridgeConservation.WithdrawalsRefine | crates/node/src/bridge.rs:472-547 | and the withdrawal direction through a run over blocks that hold exactly the burns made since the block before |
| BridgeConservation.DepositsPay | solidity/src/Bridge.sol:112-123 | a deposit step pays each recipient what was minted to it, and nobody else |
| BridgeConservation.RedeemExactly | solidity/src/Bridge.sol:147-161 | a burn to somebody takes a positive amount the sender holds and is logged once under the next withdrawal nonce, or changes nothing |
| BridgeConservation.ReleasedOfBurns | move/sources/bridge.move:188-219 | the releases of a coin sum up to distinct burns of its token |
| BridgeWithdrawals.Withdrawer.ReleaseBurns | crates/node/src/bridge.rs:492-506 | stops at the first release not confirmed |
| BridgeWithdrawals.Withdrawer.RelayWithdrawals | crates/node/src/bridge.rs:472-516 | the cursor moves only when the whole range is released |
| InboxTracker.RunGrows | crates/node/src/store/inbox_store.rs:105-165 | over syncs, blocks and receipts in any order a nonce keeps its transaction and its one inclusion height and is never submitted again |
| InboxTracker.ObserveIdempotent | crates/node/src/inbox.rs:248-275 | seeing a block again changes nothing |
| InboxTracker.ObserveSettles | crates/node/src/inbox.rs:248-275 | after a block every tracked nonce in it is included at its height |
| InboxTracker.SyncTracksAll | crates/node/src/inbox.rs:149-191 | a sync succeeds if and only if no needed read fails, and then tracks every nonce not pruned |
| InboxTracker.SyncSetsDeadlines | crates/node/src/inbox.rs:149-191 | a nonce first seen is due one window after the height it was seen at: the window just read, else the one before |
| InboxTracker.HaltIsGenuine | crates/node/src/inbox.rs:335-355 | a halt names an overdue nonce, its deadline and the height it is asked for |
| InboxTracker.EarlyBreakExact | crates/node/src/inbox.rs:335-355 | stopping at the first submitted nonce equals scanning all, at every height, if and only if its deadline is the earliest |
| InboxTracker.GateIsExact | crates/node/src/inbox.rs:149-191 | that holds in every run whose deadline heights do not decrease, so a clear gate means no overdue nonce |
| InboxTracker.DecreasingAnchorHidesOverdue | crates/node/src/inbox.rs:493-496 | a run in which the gate is clear over an overdue nonce |
| InboxTracker.CountsPrefixExactly | crates/node/src/store/inbox_store.rs:191-198 | the included count is at or below the first missing nonce if and only if the included nonces have no gap |
| InboxTracker.CursorIsSafe | crates/sui/src/settlement.rs:281-289 | one settle: while what has landed is a prefix and the previous cursor is within it, so is the next |
| InboxTracker.OutOfOrderDropsEntry | move/sources/inbox.move:343-357 | a settle accepted with a gap among the included nonces drops the pending entry of the first missing one |
| InboxTracker.CursorNeverRegresses | crates/sui/src/settlement.rs:281-289 | the accepted cursors never move back over any settles and file losses |
| ForceInclusion.CursorNeverPassesMissing | crates/sui/src/settlement.rs:281-289 | in every run of submits, polls, built blocks, receipts, settles and lost marker files in which forced transactions land in order, the on-chain cursor never passes the first nonce that has not landed |
| ForceInclusion.AdvanceKeepsInv | crates/node/src/inbox.rs:248-298 | each of these steps keeps the tracker true to the inbox: a nonce marked included has landed in a block |
| ForceInclusion.TrackerRefines | crates/node/src/inbox.rs:149-294 | in every joined run the tracker goes through a run of its own syncs, blocks, receipts and file losses, so what is proved of those holds here |
| ForceInclusion.InboxRefines | move/sources/inbox.move:343-365 | and the inbox contract through a run of its own submits, settles and waits, with the cursors the tracker computed |
| ForceInclusion.SettlePassesExactly | crates/node/src/inbox.rs:618-642 | while no marker is missing, a settle moves the cursor past the first missing nonce if and only if it is accepted and a transaction landed before one submitted earlier |
| ForceInclusion.CursorCoversExactly | crates/node/src/store/inbox_store.rs:191-198 | landed in order, the tracker's cursor covers all that has landed if and only if the chain's already does or no marker is missing |
| ForceInclusion.LostMarkersRefuseExactly | move/sources/inbox.move:343-365 | a settle is refused that the true cursor would carry through if and only if a forgotten inclusion leaves the cursor on an overdue entry |
| ForceInclusion.OutOfOrderRunDropsEntry | move/sources/inbox.move:343-357 | a run of submits, a block and a settle after which a pending entry is gone that never landed |
| ForceInclusion.ForgottenInclusionHaltsChain | crates/node/src/store/inbox_store.rs:191-198 | a run with one lost marker file after which the chain refuses a settle over a transaction that landed, though the tracker knows all that is pending |
| InboxTracker.InboxTracker.SyncInbox | crates/node/src/inbox.rs:149-191 | the sync loop and the budget it keeps or replaces |
| InboxTracker.InboxTracker.ObserveTransactions | crates/node/src/inbox.rs:248-275 | the marking loop, stopped by a second height |
| InboxTracker.InboxTracker.GateCheck | crates/node/src/inbox.rs:335-355 | the loop decides by the lowest submitted nonce |
| InboxTracker.WaitInclusionGate | crates/node/src/inbox.rs:578-615 | passes exactly at the first look without shutdown that finds a clear gate or unreadable records |
| Rotation.StayAligned | crates/sui/src/rotation.rs:552-600 | late transactions, crashes and steering of one record alone never make the two records disagree on authority or grace; with joint steering they stay equal |
| Rotation.LandsOnce | crates/sui/src/rotation.rs:552-600 | a transaction whose answer was lost lands at most once, and the process notices nothing of it |
| Rotation.CrashCallsNothingBack | crates/sui/src/rotation.rs:552-600 | a crash leaves everything sent under way, its retires as those of an earlier process |
| Rotation.PollReads | crates/sui/src/rotation.rs:429-451 | a poll judges each record as of its own read by the time read last, whatever happens in between |
| Rotation.TickIsPoll | crates/sui/src/rotation.rs:318-451 | one tick of the watcher loop is one poll of the runs below: whatever happens between its reads and before it acts, it leaves the same node and sends the same transaction |
| Rotation.TickExactly | crates/sui/src/rotation.rs:131-356 | a tick claims, swaps or retires exactly where its two answers let the staged and the configured key act so, and otherwise does nothing |
| Rotation.FailedTickIsFailedPoll | crates/node/src/rotation.rs:404-451 | a tick with a failed read is a poll that fails there |
| Rotation.PlanExactly | crates/sui/src/rotation.rs:131-203 | for equal records the plan claims, adopts, retires or refuses exactly as the contract would let its two keys act |
| Rotation.RoleNamesInstant | crates/sui/src/rotation.rs:131-203 | a waiting role names the first instant at which the staged key may claim, an adopting one the last at which the configured key may act |
| Rotation.RequestThenClaim | move/sources/rotation.move:346-413 | a request within bounds lets its target alone claim, from the end of the delay for one claim window |
| Rotation.ClaimHandsOver | move/sources/rotation.move:346-413 | after a claim the claimer may act, the authority before it for one grace period, and nobody else |
| Rotation.CancelAndRetire | move/sources/rotation.move:346-413 | only the authority cancels or retires; a cancelled request cannot be claimed, and after a retire only the authority may act |
| Rotation.MisconfiguredExactly | crates/sui/src/rotation.rs:131-203 | the plan refuses if and only if a third party holds authority at one of the reads or a change of the node's role landed between them |
| Rotation.UnsteeredMisconfiguredExactly | crates/sui/src/rotation.rs:131-203 | when nobody else acts between the reads, that change is an own claim landing or an own transaction ending the grace of the configured key |
| Rotation.TornClaimRefuses | crates/sui/src/rotation.rs:429-451 | a run in which a claim with a lost answer lands between the reads and the watcher refuses with its own key in authority |
| Rotation.RetireIsPaced | crates/sui/src/rotation.rs:318-384 | in every run a retire is sent only after this process swapped its signers, with the staged key in authority on both records, and after the quiet interval or once the configured key is out of grace |
| Rotation.QuietSinceSwap | crates/sui/src/rotation.rs:318-384 | from a process that has not swapped, the quiet interval counts from the very event that swapped the signers, with no crash since |
| Rotation.WatchIsPaced | crates/node/src/rotation.rs:404-451 | over all ticks of the loop a retire is sent only by a tick that finds the signers on the staged key, after the quiet interval, counted from the tick that swapped them, or on answers that put the configured key out of grace |
| Rotation.OwnStepsKeepSigner | crates/node/src/rotation.rs:218-227 | a step or late transaction of the node takes the key its signers hold out of authority if and only if it is a claim while that key is only in grace, or the late retire of an earlier process |
| Rotation.StepsAreConserved | crates/sui/src/rotation.rs:318-384 | over every run without steering, steps taken, late ones included, and steps left are the steps there were, plus one swap for each a crash lost |
| Rotation.ThreePollsRotate | crates/sui/src/rotation.rs:1413-1460 | from a claimable rotation three polls that get through leave the staged key in sole authority and in the signers |
| Rotation.PollExecutes | crates/sui/src/rotation.rs:318-356 | a poll that gets through in time takes a step if and only if the chain has one left |
| Rotation.RestartReadopts | crates/sui/src/rotation.rs:336-356 | a fresh process swaps its signers at its first poll if and only if a previous authority is still recorded |
| Rotation.RetiredNodeStaysLocked | crates/sui/src/rotation.rs:190-197 | after the retire a restarted node holds a key that may not act, through every later run |
| Rotation.StaleRetireLocksOut | crates/sui/src/rotation.rs:586-600 | a run in which a crash while a retire is under way leaves a process that may act until that retire lands, and never after |
| Rotation.BridgeFollowsUnlessRaced | crates/node/src/rotation.rs:214-227 | after any events from a process without a client, the client's key differs from the signers' if and only if a build, then a swap, with no share between and no crash since, are among them |
| Rotation.BuildSwapShareRaces | crates/node/src/bridge.rs:1304-1326 | a client built before the poll that swaps and shared after it goes live on the old key |
| Rotation.RacedBridgeStaysStale | crates/node/src/bridge.rs:1304-1326 | a client that lost that race keeps the old key and ends without authority |
| Rotation.Watcher.Swap | crates/node/src/rotation.rs:218-227 | records the key first, then swaps every signer there is |
| Rotation.Watcher.PollStep | crates/node/src/rotation.rs:420-436 | one tick sends or swaps what the plan of its three answers names, and nothing if a read failed; `TickIsPoll` ties that to the runs |
| Rotation.Watcher.Watch | crates/node/src/rotation.rs:404-451 | the loop over all ticks amounts to them one after another, so `WatchIsPaced` is about its calls |

## Left out

- FullNode.SettledPrefixSurvives: restarts without a readable `state.json` are covered only where the engine's head is settled; `BootIsSound` shows that this is exact.
- FullNode.SettledPrefixSurvives: the engine validates a payload only when its parent is known; a client that later fetches an unknown head by itself appears as a `Learn` event, and its background reorganisations are not modelled.
- Finalizer.RunKeepsInv: heights of one process are assumed to increase. A crash between the pending mark and the state save (`crates/node/src/runner.rs:337-345`) can give a process the same height twice, and that process is not covered.
- Finalizer.RunKeepsInv: store writes succeed, other than the removal of a marker; torn files are not modelled.
- SettlementStall.StallIsForever: assumes increasing heights within each process, as above.
- SettlementRecovery.SettlesAgainExactly: the same assumption; which blocks the execution client goes on to produce is left to the run, so a recoverable start may still need the right ones.
- SettlementRecovery.HeadDecides: needs a flush timer and a first block within the BCS limit; without them `SettlesAgainExactly` gives the condition.
- BridgeDeposits.RunKeepsInv: one token per coin key is assumed, as the factory enforces per spelling; two spellings of one coin type are not modelled.
- BridgeWithdrawals.RunKeepsInv: the same factory rule is assumed, L2 blocks once read do not change, and a withdraw transaction that lands after its call failed counts as landing at once.
- InboxTracker.GateIsExact: needs deadline heights that do not decrease and entries that stay pruned; `DecreasingAnchorHidesOverdue` shows the first is needed.
- BridgeConservation.VaultNeverShort: supplies above 256 bits and a vault that others may drain are not modelled; the vault's only outflow is the release.
- ForceInclusion.CursorNeverPassesMissing: built blocks stay built, and a forced transaction is known by its hash.
- Rotation.MisconfiguredExactly: others change both records together between the reads; steering of one record alone can make them differ by itself.
- Rotation.RetireIsPaced: others request and cancel, on one record or both, but only this node claims and retires.
- Rotation.OwnStepsKeepSigner: the same. The swap of the signers is one instant.
- Retry backoff, HTTP, gRPC and JSON-RPC framing, transaction building, gas and receipts polling: each call is an outcome.
- Signature schemes, keccak and key files: a signature is valid or not, and a transaction is known by its hash.
- Parsing of coin types, log words and the remaining fixed-layout objects.
- The window adjustment schedule of the inbox contract: a submit carries the window that applied.
- State-root anchoring beyond its equality check on a repeated settle.
- The deploy, upgrade and entombment ceremonies, p2p gossip, committee admission, metrics, configuration and the command line.

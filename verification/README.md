# A verified model of the worker's state-transition pipeline

The worker keeps the state of every shard, runs trusted calls on it, stores each new version as a
snapshot, shows it to readers, follows its parentchains and sends calls back to them. This project
models that pipeline in Dafny and proves what it keeps over whole runs.

| file | part of the worker |
|---|---|
| `StateFiles.dfy` | externalities of a shard, and the in-memory snapshot files |
| `SnapshotStore.dfy`, `SnapshotRepository.dfy` | the snapshot history as a value, and the repository object that updates it |
| `SnapshotHistoryTheorems.dfy` | files against history, revert against update, repeated ids |
| `RepositoryLoader.dfy` | rebuilding the history from files |
| `StateViews.dfy`, `StateHandler.dfy` | states map, repository and observer: three views of one state, and restart |
| `LockProtocol.dfy` | threads around the write lock of the states map |
| `FileNames.dfy` | snapshot file names |
| `Ledger.dfy`, `TrustedCalls.dfy`, `RuntimeExecution.dfy` | accounts, trusted calls, and their step-by-step execution |
| `CallEffects.dfy` | who gains and loses by a call, and the creation time of a shard |
| `BridgeAccounting.dfy`, `NonceDiscipline.dfy`, `AccountSurvival.dfy`, `VaultRules.dfy` | what trusted calls keep over batches and runs |
| `ReplayAfterRemoval.dfy` | a signed call that is executed twice |
| `BatchExecution.dfy` | the batch executor and its reports |
| `TopPool.dfy` | the pool of trusted operations, and what a block leaves of it |
| `SelfSignedNonces.dfy` | the enclave signing calls of its own, and block production |
| `ParentchainSync.dfy` | catching up with a parentchain |
| `OutgoingExtrinsics.dfy` | routing and numbering outgoing calls |

Objects that the worker updates in place are classes here, and each of their methods is proved to do what a
function on values does; the theorems are about those functions. Whatever the worker cannot decide itself is
a parameter, so every theorem holds for all its values: the hash of a state (any function of its key-value
part), the signature check, the clock behind state ids, and whether a disk, a node or a dispatched pallet
call succeeds. The balances pallet is known by its contract only: a transfer moves the whole amount or
changes nothing, setting a balance sets it or changes nothing, and an account left below the existential
deposit may lose its dust or be removed together with its nonce.

Where what one might expect does not hold, the model is kept as the code is, with a concrete input and the
condition under which it does hold. A failed shield or unshield keeps its partial effects, so money can appear
or vanish (`LeakExample`, `StrandExample`, `LeakIsPaidOut`; `FailedShieldCreatesMoney`,
`FailedUnshieldDestroysMoney`, `CoveredIff`). State ids come from a clock that may stand still or go back,
which can damage a snapshot or hide an update from a restart (`CollisionExample`, `ClockBackExample`;
`CollidingUpdateIff`, `RestartFindsUpdateIff`). A snapshot that cannot be written leaves the states map ahead
of the other views (`FailedWriteExample`; `RunAgrees`). An account that falls below the deposit can be removed
and with it its nonce: its old calls pass again (`ReplayExample`; `CallRemovesIff`, `AffordingIsNotReplayed`), and
if it is the enclave's, its pending calls are out of step (`RemovalBreaksStep`; `AlwaysInStep`). So can they be if a
block skips one of them and attempts a later one (`SkippingBreaksStep`; `OwnCallsPassIff`).

`dafny verify dfyconfig.toml` checks the whole project.

## Model

| member | source | states |
|---|---|---|
| StateFiles.InMemoryStateFileIo.InitializeShard | core-primitives/stf-state-handler/src/in_memory_state_file_io.rs:131-145 | an existing file with the id is kept and its hash returned, otherwise the file is created; nothing else changes |
| StateFiles.InMemoryStateFileIo.Write | core-primitives/stf-state-handler/src/in_memory_state_file_io.rs:147-164 | the file of that shard and id holds the key-value part and its hash, without the diff |
| StateFiles.InMemoryStateFileIo.Remove | core-primitives/stf-state-handler/src/in_memory_state_file_io.rs:166-178 | fails exactly when the file is missing, and then changes nothing |
| StateFiles.InMemoryStateFileIo.ListStateIds | core-primitives/stf-state-handler/src/in_memory_state_file_io.rs:191-198 | lists every id once, in no particular order; fails exactly for an unknown shard |
| SnapshotStore.Position | core-primitives/stf-state-handler/src/state_snapshot_repository.rs:248-253 | the newest snapshot with the hash, or none if and only if no snapshot has it |
| SnapshotStore.UpdateRefines | core-primitives/stf-state-handler/src/state_snapshot_repository.rs:216-239 | under a fresh id an update is push-front and truncate to the cache size; all other shards are untouched and every kept id loads its own state |
| SnapshotStore.InitializeRefines | core-primitives/stf-state-handler/src/state_snapshot_repository.rs:179-191 | initialising or re-initialising a shard leaves a single version |
| SnapshotStore.RevertRefines | core-primitives/stf-state-handler/src/state_snapshot_repository.rs:241-267 | a revert drops everything before the first version with the hash and returns that version; an unknown hash changes nothing |
| SnapshotStore.RunRefines | core-primitives/stf-state-handler/src/state_snapshot_repository.rs:202-284 | in every run with fresh ids all replies and all histories are those of a plain list of versions per shard |
| SnapshotHistoryTheorems.RunExact | core-primitives/stf-state-handler/src/state_snapshot_repository.rs:138-191 | in every run that never re-initialises a shard the files of a shard are exactly the ids of its history |
| SnapshotHistoryTheorems.ReinitializeLeaks | core-primitives/stf-state-handler/src/state_snapshot_repository.rs:269-275 | files and history stay the same exactly if the initialised shard was new; otherwise the old files stay behind |
| SnapshotHistoryTheorems.RevertUndoesUpdates | core-primitives/stf-state-handler/src/state_snapshot_repository.rs:216-267 | after k updates, fewer than the cache holds, reverting to the old head returns the old state and the old history truncated to what the cache kept; doing it again changes nothing |
| SnapshotHistoryTheorems.RevertTwice | core-primitives/stf-state-handler/src/state_snapshot_repository.rs:241-267 | any revert repeated gives the same reply and the same store |
| SnapshotHistoryTheorems.CollidingUpdateIff | core-primitives/stf-state-handler/src/state_snapshot_primitives.rs:54-56 | an update under an id the history already has keeps every snapshot intact exactly if the older one is kept and held the same state |
| SnapshotHistoryTheorems.CollisionExample | core-primitives/stf-state-handler/src/state_snapshot_primitives.rs:54-56 | two states under one id: reverting to the hash of the first loads the second |
| SnapshotRepository.StateSnapshotRepository.New | core-primitives/stf-state-handler/src/state_snapshot_repository.rs:97-110 | a cache size of zero is refused |
| SnapshotRepository.StateSnapshotRepository.LoadLatest | core-primitives/stf-state-handler/src/state_snapshot_repository.rs:211-214 | loads the file of the newest snapshot, with the error cases |
| SnapshotRepository.StateSnapshotRepository.RemoveSnapshots | core-primitives/stf-state-handler/src/state_snapshot_repository.rs:152-167 | removes every given file, going on after a failure, and counts the failures |
| SnapshotRepository.NoneAbsentIff | core-primitives/stf-state-handler/src/state_snapshot_repository.rs:152-167 | no removal fails exactly if every file is there and none is to be removed twice |
| SnapshotRepository.StateSnapshotRepository.Prune | core-primitives/stf-state-handler/src/state_snapshot_repository.rs:138-150 | takes a range out of the history and its files off the disk; no removal fails if the range has its files |
| SnapshotRepository.StateSnapshotRepository.InitializeNewShard | core-primitives/stf-state-handler/src/state_snapshot_repository.rs:179-191 | history and files after initialising: a single snapshot under the hash the file store reports, older files left alone |
| SnapshotRepository.StateSnapshotRepository.Update | core-primitives/stf-state-handler/src/state_snapshot_repository.rs:216-239 | history and files after an update: the new snapshot in front, everything beyond the cache size gone together with its files, the passed hash ignored for a shard that was unknown; in a consistent store no removal fails, even under an id that is taken |
| SnapshotRepository.StateSnapshotRepository.RevertTo | core-primitives/stf-state-handler/src/state_snapshot_repository.rs:241-267 | reply, history and files after a revert; nothing is dropped unless the target was found and loaded; in a consistent store no removal fails |
| RepositoryLoader.NewestFirst | core-primitives/stf-state-handler/src/state_snapshot_repository_loader.rs:72-75 | the listed ids, each once, greatest first |
| RepositoryLoader.RecoveredStartsWithHistory | core-primitives/stf-state-handler/src/state_snapshot_repository_loader.rs:63-102 | the loaded history starts with the whole running history in the same order, and equals it if no file had leaked |
| RepositoryLoader.RecoveredUnique | core-primitives/stf-state-handler/src/state_snapshot_repository_loader.rs:71-77 | the loaded history does not depend on the order in which files are listed |
| RepositoryLoader.RecoveredIsSound | core-primitives/stf-state-handler/src/state_snapshot_repository_loader.rs:63-102 | a loaded store satisfies everything a running store keeps |
| RepositoryLoader.StateSnapshotRepositoryLoader.MapToSnapshotMetadata | core-primitives/stf-state-handler/src/state_snapshot_repository_loader.rs:104-122 | for any ids, an entry for each one whose file can be read, in order, the others left out |
| RepositoryLoader.ReadableSnapshots | core-primitives/stf-state-handler/src/state_snapshot_repository_loader.rs:71-77 | of any ids listed newest first, the result has exactly the readable ones, newest first, each with the hash of its content |
| RepositoryLoader.StateSnapshotRepositoryLoader.LoadShard | core-primitives/stf-state-handler/src/state_snapshot_repository_loader.rs:71-100 | all files of the shard newest first, or, if there are none, one initial snapshot under the id the clock gives; other shards untouched |
| RepositoryLoader.StateSnapshotRepositoryLoader.LoadSnapshotRepository | core-primitives/stf-state-handler/src/state_snapshot_repository_loader.rs:49-102 | every shard directory becomes a shard with its recovered history, an empty one with an initial snapshot under the id the clock gives |
| StateViews.StepFollows | core-primitives/stf-state-handler/src/state_handler.rs:203-229 | one operation puts the written shard where it was written to, in the views that received it, and leaves every view of every other shard as it was; a failing snapshot write reaches the states map only; the answer is the hash of the state written, as the map and the newest snapshot record it, or an error |
| StateViews.RunFollows | core-primitives/stf-state-handler/src/state_handler.rs:203-229 | in every run, with any snapshot writes failing, the states map holds the last state written to a shard, its newest snapshot and the observer the last one the disk took |
| StateViews.RunAgrees | core-primitives/stf-state-handler/src/state_handler.rs:203-229 | after every run, whatever failed, the states map, the latest snapshot, its recorded hash and the next observation of a shard agree exactly if the last state written is the last one stored, or, with none stored, the one they agreed on before; shards nobody wrote look as before |
| StateViews.FailedWriteExample | core-primitives/stf-state-handler/src/state_handler.rs:215-220 | a failing snapshot write after which the states map has the new state and the other views the old one |
| StateViews.StartupAgrees | core-primitives/stf-state-handler/src/state_handler.rs:78-132 | right after start-up over any files all views of all shards agree, and the files are exactly the history |
| StateViews.ReloadIsIdentity | core-primitives/stf-state-handler/src/state_snapshot_repository_loader.rs:63-122 | loading the files of a store as every run leaves it gives back that store |
| StateViews.RestartAgreement | core-primitives/stf-state-handler/src/state_handler.rs:80-132 | start up over any files, run any handler operations with any snapshot writes failing, start up again: the repository is what it was, and a shard has lost exactly the writes after the last one the disk took |
| StateViews.RestartIsIdentity | core-primitives/stf-state-handler/src/state_handler.rs:80-132 | if no snapshot write failed, the whole states map is what it was |
| StateViews.RestartFindsUpdateIff | core-primitives/time-utils/src/lib.rs:55-64 | a restart finds an update exactly if its id is later than the previous snapshot's or only one snapshot is kept |
| StateViews.ClockBackExample | core-primitives/time-utils/src/lib.rs:55-64 | an update whose id is earlier than the snapshot before it: the restart finds that snapshot |
| StateHandler.StateObserver.ApplyPendingUpdate | core-primitives/stf-state-observer/src/state_observer.rs:52-69 | every queued state replaces the current one, the queue is empty, nothing else changes |
| StateHandler.StateObserver.ObserveState | core-primitives/stf-state-observer/src/state_observer.rs:75-90 | the function sees the latest queued state, or the current one; it can change this copy only |
| StateHandler.StateObserver.QueueStateUpdate | core-primitives/stf-state-observer/src/state_observer.rs:93-99 | the newest update of a shard replaces an older one in the queue |
| StateHandler.StateHandler.LoadFromRepository | core-primitives/stf-state-handler/src/state_handler.rs:80-132 | the states map holds the latest loadable snapshot of every shard under its hash |
| StateHandler.InitializeStateObserver | enclave-runtime/src/initialization/mod.rs:192-206 | the observer holds the latest snapshot of every shard, and is not created if one cannot be loaded |
| StateHandler.StartUp | enclave-runtime/src/initialization/mod.rs:122-137 | start-up over any files succeeds for any non-zero cache size, recovers the repository from them, and sets up all three views from it |
| StateHandler.StateHandler.LoadCloned | core-primitives/stf-state-handler/src/state_handler.rs:177-187 | the state together with its hash, or an error for an unknown shard |
| StateHandler.StateHandler.LoadForMutation | core-primitives/stf-state-handler/src/state_handler.rs:189-201 | the lock is held afterwards exactly if the shard is known; nothing is changed |
| StateHandler.StateHandler.WriteAfterMutation | core-primitives/stf-state-handler/src/state_handler.rs:203-222 | map, repository and queue after the write, the lock released, and the map alone changed if the disk fails; the answer is the hash of the written state, as the map records it, exactly if the disk took it |
| StateHandler.StateHandler.Reset | core-primitives/stf-state-handler/src/state_handler.rs:224-229 | a write under a lock of its own, with the same answer |
| StateHandler.StateHandler.InitializeShard | core-primitives/stf-state-handler/src/state_handler.rs:160-163 | a reset to the initial state, with its hash as the answer |
| StateHandler.Perform | enclave-runtime/src/shard_creation_info.rs:102-105 | load, change and write under the lock is one step of the runs above, with the answer of the write, or of a load that fails and changes nothing |
| LockProtocol.RunIsSerial | core-primitives/stf-state-handler/src/state_handler.rs:189-222 | every interleaving of any number of threads, each writing under any shard, equals their turns taken one after the other in lock order |
| LockProtocol.NoLostUpdates | core-primitives/stf-state-handler/src/state_handler.rs:189-222 | every shard ends at what the last turn that wrote it made of the shard that turn loaded, as all turns before it left that shard, stored with the hash of that state |
| LockProtocol.ReadersSeeCommitted | core-primitives/stf-state-handler/src/state_handler.rs:165-187 | a reader at any moment of any run sees what the finished turns made of the shard, with its own hash |
| LockProtocol.LockIsReleased | core-primitives/stf-state-handler/src/state_handler.rs:165-222 | after any run the lock is held for reading as often as it was taken and not let go of, and for writing exactly by a thread whose load got it and that has neither written nor dropped it |
| FileNames.FileNameRoundTrip | core-primitives/stf-state-handler/src/file_io.rs:374-381 | the id of a generated name is the id it was generated from, so names are injective in ids |
| FileNames.ExtractedIffStandsFor | core-primitives/stf-state-handler/src/file_io.rs:378-381 | an id is extracted exactly from its own decimal name, up to a plus sign and leading zeros, and only if it fits 128 bits |
| Ledger.TransferSucceedsIff | app-libs/stf/src/trusted_call.rs:282-297 | a transfer goes through exactly if the pallet lets it and the amount can be paid and received, and otherwise changes nothing |
| Ledger.TransferTotal | app-libs/stf/src/trusted_call.rs:282-297 | a transfer conserves the sum of balances up to the dust it reports |
| Ledger.ForceSetTotal | app-libs/stf/src/trusted_call.rs:588-594 | setting a balance changes the sum by exactly the difference, up to dust |
| CallEffects.CallMovesMoney | app-libs/stf/src/trusted_call.rs:268-388 | every account after a call past the nonce check, up to the dust the call reports: a decree of root sets exactly one balance; otherwise fee to the enclave, value to the receiver, both from the sender, as far as the call got |
| CallEffects.CallSucceedsIff | app-libs/stf/src/trusted_call.rs:223-564 | a call succeeds exactly if it passes the nonce check, moves all its money, and has the vault, metadata, privilege and dispatches it needs |
| CallEffects.CallErrors | app-libs/stf/src/trusted_call.rs:223-564 | every error but that of a dispatched call comes from exactly one cause |
| CallEffects.CallAsks | app-libs/stf/src/trusted_call.rs:331-387 | a successful unshield asks for one transfer from the vault to the beneficiary on the vault's chain, a successful shield for one proof on Integritee, everything else for nothing |
| CallEffects.CallSetsTimes | app-libs/stf/src/trusted_call.rs:389-443 | the creation time is set exactly by an Integritee timestamp of the enclave whose dispatch goes through, if there is none yet; the current time of a chain exactly by a successful timestamp |
| CallEffects.CreatedForGood | app-libs/stf/src/trusted_call.rs:389-443 | over every run the creation time never changes once set, and a shard without one gets it from the first Integritee timestamp of the enclave whose dispatch goes through |
| BridgeAccounting.ShieldFundsTotal | app-libs/stf/src/trusted_call.rs:597-622 | fee and rest together add the shielded amount, also when the beneficiary is the fee account, and less if a balance wraps around |
| BridgeAccounting.UnshieldConserves | app-libs/stf/src/trusted_call.rs:300-359 | an unshield burns its amount exactly if fee and burn go through, and pays out exactly if a vault and the metadata are there as well |
| BridgeAccounting.ShieldConserves | app-libs/stf/src/trusted_call.rs:360-388 | a shield succeeds exactly for the enclave, the vault's chain, both credits and known metadata; what it adds in each case |
| BridgeAccounting.CallBalances | app-libs/stf/src/trusted_call.rs:223-564 | the books of any call but root setting a balance: supply, payout, dust and stranded money afterwards equal supply and shielded or leaked money before; failed calls emit nothing |
| BridgeAccounting.FailedShieldCreatesMoney | app-libs/stf/src/trusted_call.rs:368-387 | a failed shield raises the supply, counting lost dust, exactly if it failed after crediting a non-zero amount |
| BridgeAccounting.LeakExample | app-libs/stf/src/trusted_call.rs:597-622 | a concrete shield that fails and still raises the supply |
| BridgeAccounting.FailedUnshieldDestroysMoney | app-libs/stf/src/trusted_call.rs:329-351 | a failed unshield lowers the supply, counting lost dust, exactly if it failed after burning a non-zero amount |
| BridgeAccounting.StrandExample | app-libs/stf/src/trusted_call.rs:329-351 | a concrete unshield that fails and still lowers the supply |
| BridgeAccounting.BatchBalances | core-primitives/stf-executor/src/executor.rs:301-350 | over any batch in which root sets no balance, whatever fails half way: supply, payouts, dust and stranded money afterwards are at most initial supply, shielded and leaked money, with equality below the 128-bit limit; shielded and leaked together are at most what the enclave asked for |
| BridgeAccounting.CoveredIff | core-primitives/stf-executor/src/executor.rs:121-155 | below the 128-bit limit, supply, payouts and dust are covered by initial supply and shielded money exactly if no more was leaked than stranded |
| BridgeAccounting.PayoutsAreCovered | core-primitives/stf-executor/src/executor.rs:121-155 | over any batch in which root sets no balance and no shield of the enclave is stopped after crediting, what is left and was paid out is at most the initial supply plus what was shielded |
| BridgeAccounting.LeakIsPaidOut | app-libs/stf/src/trusted_call.rs:300-388 | a batch of a failing shield and a successful unshield that pays out 500000000 from a shard of 1000 with nothing shielded |
| BridgeAccounting.ExecuteKeepsRoles | app-libs/stf/src/trusted_call.rs:223-564 | no trusted call changes a vault, the enclave account or the sudo key |
| NonceDiscipline.CallUsesItsNonce | app-libs/stf/src/trusted_call.rs:228-236 | a wrong nonce changes nothing; any other call uses up exactly its own nonce, even when it fails later, and nobody else's |
| NonceDiscipline.PassedAreConsecutive | core-primitives/stf-executor/src/executor.rs:322-343 | over any batch the calls of a sender that pass the check carry consecutive nonces from the initial one, unless the account is removed |
| NonceDiscipline.NoReplay | core-primitives/stf-executor/src/executor.rs:322-343 | no nonce of a sender is executed twice within a turn of the 32-bit counter, unless its account is removed |
| ReplayAfterRemoval.ReplayExample | app-libs/stf/src/trusted_call.rs:228-299 | the same signed transfer executed twice with success in one batch: its sender is removed after the first and refilled by a shield |
| AccountSurvival.AffordingSurvives | app-libs/stf/src/trusted_call.rs:268-388 | an account that can pay for all its own calls in a batch, whose balance root does not set below what it needs, is not removed by the batch, below the 128-bit limit, and then still affords what is to come |
| AccountSurvival.AffordingIsNotReplayed | app-libs/stf/src/trusted_call.rs:228-236 | no nonce of such an account is executed twice in the batch: replay protection under a condition that can be checked before it runs |
| AccountSurvival.CallRemovesIff | app-libs/stf/src/trusted_call.rs:243-388 | below the 128-bit limit, a call past the nonce check can remove an account above the deposit exactly if it is root setting its balance below the deposit, or that account paying a fee, a transfer or an unshield so that less than the deposit is left |
| VaultRules.NextKeepsVault | app-libs/stf/src/stf_sgx.rs:327-373 | initialising a vault sets it if there is none and changes nothing otherwise |
| VaultRules.VaultIsStable | app-libs/stf/src/stf_sgx.rs:327-373 | over every run at most one chain holds a vault and it never changes once set |
| VaultRules.OneVaultForGood | app-libs/stf/src/trusted_call.rs:331-376 | every payout of a run goes through the one vault the run ends with, and every successful shield names its chain |
| VaultRules.VaultsListed | app-libs/stf/src/helpers.rs:115-129 | with at most one vault, listing finds exactly that vault and its chain |
| RuntimeExecution.Runtime.Execute | app-libs/stf/src/trusted_call.rs:223-564 | the whole state after a call; when it succeeds, what every account then holds, what is asked of the parentchains, that the books balance as in `CallBalances`, vaults stay, and exactly the sender's nonce moves |
| RuntimeExecution.Runtime.InitShardVaultAccount | app-libs/stf/src/stf_sgx.rs:327-373 | succeeds exactly if that very vault is the only one already or there is none and it can be set; then it is the only vault, otherwise nothing changes |
| VaultRules.InitShardVaultIff | app-libs/stf/src/stf_sgx.rs:327-373 | initialising succeeds exactly if that very vault is the only one already or there is none and it can be set; each of the three errors has exactly one cause, and a failure changes nothing |
| BatchExecution.FoldComposes | core-primitives/stf-executor/src/executor.rs:318-349 | executing two batches one after the other is executing their concatenation |
| BatchExecution.FoldSkipsFatal | core-primitives/stf-executor/src/executor.rs:322-343 | operations that cannot be attempted leave no trace; all others are reported once and in order |
| BatchExecution.BatchIsJudged | core-primitives/stf-executor/src/executor.rs:91-155 | every job attempted in a batch is a success exactly if it is a call with a good signature that the state transition accepts on the state the jobs before it left, and then carries its hash and calls; a getter or a bad signature leaves the state alone |
| BatchExecution.ReportsPartition | core-primitives/stf-executor/src/lib.rs:138-169 | success hashes and failed operations partition the executed list by position, and callbacks are those of the successes in order |
| BatchExecution.StfExecutor.ExecuteTrustedCallOnStf | core-primitives/stf-executor/src/executor.rs:85-156 | attempted exactly if the measurement is known, and judged as in `BatchIsJudged`; the state keeps what a failing call did |
| BatchExecution.StfExecutor.ProposeStateUpdate | core-primitives/stf-executor/src/executor.rs:301-350 | the result is the fold over the jobs that start in time, from the stored state, which is only read |
| TopPool.Author.RemoveCallsFromPool | core-primitives/top-pool-author/src/author.rs:380-395 | all given operations are gone, the rest keeps its order, and exactly the missing ones are reported, in the order in which they were to be removed |
| TopPool.NoncesOfPending | core-primitives/top-pool-author/src/author.rs:342-370 | the pending calls of an account are counted and ordered as in the pool |
| TopPool.PendingInOrder | core-primitives/top-pool-author/src/author.rs:342-370 | the pending calls, in all and of one account, are exactly those in the pool, in its order |
| TopPool.BlockRemains | core-primitives/top-pool-author/src/author.rs:380-395 | a block leaves of the pending calls exactly those it skipped and, behind them, those it did not get to, in order |
| SelfSignedNonces.SubmitsWhatWasGiven | core-primitives/stf-executor/src/enclave_signer.rs:121-145 | what is submitted is the given call, direct or indirect as asked, with observed nonce plus pending count, behind everything else; with too many pending, nothing is submitted |
| SelfSignedNonces.SubmittingKeepsStep | core-primitives/stf-executor/src/enclave_signer.rs:121-145 | submitting it keeps the enclave's pending nonces consecutive |
| SelfSignedNonces.BlocksKeepStep | core-primitives/top-pool-author/src/author.rs:342-395 | a block that does not remove the enclave's account and attempts no call of the enclave after skipping one runs the enclave's calls past the nonce check, and the rest stays in step |
| SelfSignedNonces.BlocksKeepSafe | core-primitives/top-pool-author/src/author.rs:342-395 | if the enclave affords what is pending and still to come, a block does not remove its account, and afterwards it affords what is left and still to come |
| SelfSignedNonces.AlwaysInStep | core-primitives/stf-executor/src/enclave_signer.rs:85-145 | over every run in which the enclave affords its own calls, root does not set its balance below what it needs, money stays below the 128-bit limit and no block attempts a call of the enclave after skipping one, the enclave's pending calls carry exactly the nonces from the observed one on, in order |
| SelfSignedNonces.OwnCallsPassIff | app-libs/stf/src/trusted_call.rs:228-236 | after any such run, the calls of the enclave that the next block attempts all pass the nonce check exactly if none is attempted after one that was skipped |
| SelfSignedNonces.RemovalBreaksStep | app-libs/stf/src/trusted_call.rs:243-267 | a block in which root sets the enclave's balance to 0: the account is removed, its nonce falls from 5 to 0, and its pending call is out of step |
| SelfSignedNonces.SkippingBreaksStep | core-primitives/stf-executor/src/executor.rs:322-343 | a block that skips the first of three calls of the enclave and attempts the second: that one fails and is removed, and the other two are out of step |
| ParentchainSync.ParentchainHandler.FetchChunk | service/src/parentchain_handler.rs:216-251 | events and proofs are left out exactly for a chunk wholly before the creation of the shard, and are otherwise those of each block |
| ParentchainSync.ParentchainHandler.SyncUntilLatestFinalized | service/src/parentchain_handler.rs:155-275 | delivers every block from last plus one to the head once, in order, in as many chunks of at most 1000 as that takes, and returns the header numbered max(last, head), exactly if every round gets an answer; otherwise exactly the chunks before the first round without one are delivered |
| ParentchainSync.ParentchainHandler.AwaitSyncUntilAtLeast | service/src/parentchain_handler.rs:277-300 | over any sequence of heads the deliveries are one gapless range, and the wanted block is in when it returns; it fails only if a round gets no answer or the last block is not of this chain |
| ParentchainSync.RelevantEventsDelivered | service/src/parentchain_handler.rs:216-259 | every synced block not older than the shard is delivered with its own events and proof at its own index |
| OutgoingExtrinsics.ExtrinsicsFactory.CreateExtrinsics | core-primitives/extrinsics-factory/src/lib.rs:109-149 | one extrinsic per call with consecutive nonces; a failure uses none |
| OutgoingExtrinsics.ParentchainSender.SendBlocksAndExtrinsics | enclave-runtime/src/top_pool_execution.rs:322-371 | chain after chain, stopping at the first failure with everything before it sent; succeeds exactly if peers are there and every chain with calls has metadata and a validator |
| OutgoingExtrinsics.SendSucceedsIff | enclave-runtime/src/top_pool_execution.rs:322-371 | sending succeeds exactly if peers are there and every chain with calls has metadata and a validator |
| OutgoingExtrinsics.RoutedOnce | enclave-runtime/src/top_pool_execution.rs:336-362 | every call is routed to its own chain and no other, in order |
| OutgoingExtrinsics.SentExactlyOnce | enclave-runtime/src/top_pool_execution.rs:336-368 | over any sequence of sends for which all that is needed is there, call i becomes exactly one extrinsic on its chain, at its rank, with the nonce of that rank |
| OutgoingExtrinsics.LaneAfterSendings | enclave-runtime/src/top_pool_execution.rs:322-371 | over any sendings, whatever fails, each extrinsic created on a chain takes one nonce, in order, and the chain receives exactly those that were sent |
| OutgoingExtrinsics.NoNonceTwice | core-primitives/nonce-cache/src/nonce_cache.rs:33-58 | whatever fails, as long as at most 2^32 extrinsics are created on a chain, those it receives carry pairwise different nonces |

## Left out

- The encrypted file store, base58 directory names and file I/O errors while loading: the in-memory store stands in for the disk; a failing snapshot write is a parameter of the handler.
- Interleavings after the states-map lock is released: writing the snapshot and queueing the observer update are taken as one step with the insert.
- Lock poisoning, logging, metrics and remaining-time estimates.
- Threads around the locks of the observer, the snapshot repository and the nonce cache.
- EVM calls, reserved balances, and the inside of the FRAME pallets beyond the contract described above.
- Signature schemes, SCALE encoding and block hashes: signature check and hashes are arbitrary functions, outgoing calls are structured values.
- The inside of the pool (priorities, banning, watchers), Aura, slots, block import and the light client: the pool is an ordered list without duplicates, and producing a block is one step.
- Pruning the state diff right after a single call, `update_states` and `initialize_new_shards` in the executor: they would add only easy members.
- Getters, CLI, RPC, attestation, configuration and the rest of start-up.
- ParentchainSync.ParentchainHandler.SyncUntilLatestFinalized: block numbers within one chunk of the 32-bit limit are excluded, because the additions of the loop would overflow there.
- ParentchainSync.ParentchainHandler.AwaitSyncUntilAtLeast: the heads seen are a finite list, so waiting for ever shows as an answer of none.
- SelfSignedNonces.AlwaysInStep: one direction only over runs; which single calls can remove the enclave's account, and which blocks let all its calls pass, is exact in `CallRemovesIff` and `OwnCallsPassIff`. Nobody but the enclave submits calls in its name; the pool itself does not check signatures.
- AccountSurvival.AffordingIsNotReplayed: one direction only over batches; whether an account that cannot afford a batch is removed in it is up to the pallet.

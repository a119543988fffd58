# Temporary tuning, verified

A Dafny model of the temporary-tuning stack of Undervolt Go Studio and proofs of what it promises: that settings
changed for the moment can always be put back, and that "stock settings restored" is only said when it is true.

`dafny verify dfyconfig.toml` checks everything.

## How it is put together

**Transactions.** `TransactionSpec` says what the engine does as a function of the world and of an oracle that decides
how every fallible call goes. Every state of hardware and recovery file that a crash could leave is appended to a
history, so "at every instant" is a statement about a sequence. `Recovery` models the file that publishes the record,
step by step. `TransactionSafety` holds the invariants, `TransactionLaws` order, retries and reports, `TransactionRuns`
whole runs with crashes and reboots, `TransactionRecords` what the records say, `TransactionErrors` when a request is
refused, `TransactionTrails` what happens in between. `Transaction` is the engine as mutable objects and loops, proved
call by call against the specification.

**Session, client, system.** `SessionSpec` is the helper's select loop as a state machine over timed inputs;
`SessionLaws`, `SessionReplies`, `SessionAnswers` and `SessionEnds` say what every session keeps, what its replies mean
and when it ends.
`ClientSpec` has the client's critical sections. `SystemSpec` composes helper, both pipes, client, renewal loop and
reader, one atomic step at a time, with the helper dying at any of them; `SystemSafety` proves the claims made to the
user, `SystemLives` that they hold of one helper after another, and `SystemRenewals` that a lease can be kept.
`Session` and `Client` are the same as mutable objects.

**Drivers.** `SourceSpec` is a control spread over several files, `Sysfs` the store; `Powercap`, `Policy`, `Voltage`
(with `VoltageCodec`), `Ratio` and `Thermal` are the operations. `DriverContract` connects them to what the engine
assumes.

**Arithmetic and telemetry.** `Model` and `Validate` (grids, change sets), `TimeWindow` and `PowerLimit` (RAPL), `Codec`
(framing), `Discovery` (merging), `Scheduler` and `History`.

A module whose name ends in `Spec` holds the pure specification and its lemmas; the module of the same name without
`Spec` holds the code with loops and fields that is proved to do the same.

## What the proofs found

- The write-ahead evidence can be lost in two ways and no other (`EveryRunKeepsEvidenceIff`). A transaction marks a
  control, and the save fails before it is published; the save that begins the rollback fails likewise; and the
  rollback then restores the control although it was never written, while no durable record flags it
  (`CommitGoesAstrayIff`). Or a retried rollback does so for the control flagged last (`RollbackGoesAstrayIff`). Either
  takes a Restore that rewrites what is in place, and a write that goes wrong. Energy preferences and voltages are left
  alone when in place; powercap limits, ratios and thermal offsets are rewritten, and then nothing is lost as long as
  every write leaves the old value or the new (`DriverContract`). Recoveries never lose evidence.
- "Stock settings restored; helper session closed" is true after a successful handshake. A client that only greets the
  helper and then closes is told the same over the unrepaired leftovers of a crash (`UnvettedClaimIsFalse`). The
  desktop service does not listen to a client whose handshake has failed, so it never passes that event on.
- A renewal that the helper reads when its transaction is no longer outstanding ends the session with an error
  (`RenewalIsTakenIff`). The client stops renewing only once a revert is answered, so a renewal can cross the revert
  and do this; the hardware is at stock then (`RenewalAfterRevertIsFatal`).
- Removing the record is not made durable. After a power loss it may be back (`Recovery.RecoveryFile.Remove`); the boot
  is then another one, so nothing is restored from it, but tuning stays blocked until it is dealt with.
- A powercap Apply that fails only in its last reading has undone nothing (`LastReadCanFail`); the engine has to, and
  does.
- An energy preference snapshot that leaves policies out is restored with success (`IncompleteSnapshotLeavesTheRest`).
- The thermal snapshot holds one of two interfaces; if they disagreed, restoring makes them agree
  (`RestoreUndoesApplyIff`). Probing offers the control read-only then (internal/tuning/intel/thermal/tcc.go:60-64), so
  this takes interfaces that part ways between the probe and the capture.
- A ratio register whose ratios do not descend can be captured but never restored (`RatioSpec.RestorePutsBack`).
  Probing rejects such a register (internal/tuning/intel/msr/driver.go:93-97), and offers no ratio or voltage for
  editing at all; preparing a change to one is always refused (internal/tuning/intel/msr/driver.go:126-134). So
  `Voltage` and `Ratio` are about operations that the program holds ready but does not reach.
- The saturated time window is 0xfe, eight bits for a field of seven: it comes out as 0x7e and sets a reserved bit, so
  the longest code, 0x7f, does not survive a change of the other half (`ShortHalfIsKept`, `LongHalfIsKept`).
- A positive time window of at most 7/8 of a unit gets a negative exponent, whose two's complement overwrites what is
  above the field. In the long-term half this sets every bit of the short-term half, and in either half it locks the
  register (`ShortHalfIsKept`, `LongHalfIsKept`; `HalfAMillisecondLocks` for an instance). Windows of zero and below
  get the two least codes.
- Normalising is not idempotent for a range whose maximum is positive but within the tolerance and off the grid
  (`TinyMaximumDoesNotSettle`). Revalidation is proved for all others.
- The two voltage decoders disagree on one field, the most negative number.
- A stream cut right after a header looks like one that ended properly (`TruncationKeepsCompleteMessages`).

## Model

| member | source | states |
|---|---|---|
| `TransactionRuns.EveryRunKeepsEvidenceIff` | internal/tuning/transaction.go:60-278 | For every set of drivers, gentle or not, and every run of transactions, rollbacks, recoveries, crashes between any two steps and reboots: at every instant of every boot each control off stock has a flagged entry with its stock snapshot in a durable record this machine would replay, if and only if no command of the run comes out in one of the two ways of the next two rows |
| `TransactionRuns.CommitGoesAstrayIff` | internal/tuning/transaction.go:94-169 | A transaction loses evidence exactly if marking an operation fails without being published, the save that begins the rollback fails likewise, the control is one whose Restore rewrites what is in place, and that rewriting disturbs it |
| `TransactionRuns.RollbackGoesAstrayIff` | internal/tuning/transaction.go:137-169 | A rollback loses evidence exactly if the operation flagged last is flagged in no durable record, the save before the undoing fails without being published, and its Restore rewrites and disturbs it |
| `TransactionRuns.ExecuteGoesAstrayIff` | internal/tuning/transaction.go:60-278 | The same for any one command: a recovery, a crash and a reboot never lose evidence |
| `TransactionRuns.ExecuteKeepsSound` | internal/tuning/transaction.go:60-278 | One command of such a run keeps the invariant: evidence so far is complete exactly if nothing has gone astray; a loss, once a crash has struck over it, is never forgotten |
| `TransactionRuns.GentleRunsHaveNoMishap` | internal/tuning/transaction.go:137-169 | If every control is one whose Restore leaves alone what is in place, no run comes out in those ways |
| `TransactionRuns.RoughRestoreLosesEvidence` | internal/tuning/transaction.go:99-107 | Whenever restoring PL1 rewrites what is in place, a concrete run that loses the evidence: marking the control fails, and the rollback disturbs what was never written |
| `TransactionRuns.TransactionsStartAtRest` | internal/tuning/transaction.go:232-278 | A process is ready for a transaction only with the hardware at stock and nothing flagged in the record, unless a crash has struck over lost evidence |
| `TransactionSafety.RollbackKeepsLive` | internal/tuning/transaction.go:137-169 | Whatever the drivers are like: a rollback reports success exactly when it is finished, and then the hardware is at stock and the record gone; otherwise it can be tried again with all it takes; the durable evidence is complete at every instant exactly if no restoration has gone astray |
| `TransactionSafety.ApplySettles` | internal/tuning/transaction.go:60-129 | Whatever fails while applying, the result is a live transaction that can be undone, or hardware at stock; the durable evidence is complete at every instant exactly if no restoration has gone astray |
| `TransactionSafety.CommitSettles` | internal/tuning/transaction.go:84-129 | The write-ahead part: an undone transaction leaves stock hardware and no record; one that cannot be undone stays live |
| `TransactionSafety.RecoverRestores` | internal/tuning/transaction.go:232-278 | Recovery keeps the evidence at every instant, whatever the drivers do; success on a current record means stock hardware and no record; a record of an earlier boot touches nothing |
| `TransactionSafety.RecoverAtRest` | internal/tuning/transaction.go:232-278 | Recovering a machine at rest leaves it at rest |
| `TransactionSafety.ReplayOfNothing` | internal/tuning/transaction.go:250-270 | A record that flags nothing is replayed without touching anything |
| `TransactionSafety.UndoOnlyClears` | internal/tuning/transaction.go:143-161 | A rollback attempt only clears flags, so what remains to be restored only shrinks over retries |
| `TransactionSafety.SortIsStable` | internal/tuning/transaction.go:85 | The application order is by Order and keeps the order of the request among equals; it has the same operations |
| `TransactionSafety.PrepareMatchesChanges` | internal/tuning/transaction.go:69-84 | One operation is prepared for each accepted change, in its order, of the driver that offers the control, which is one of those the engine has; the hardware is not touched |
| `TransactionSafety.CaptureReadsHardware` | internal/tuning/transaction.go:87-93 | Every snapshot is what the hardware holds before the first write |
| `TransactionErrors.ApplyRefusesIff` | internal/tuning/transaction.go:60-106 | A request ends without anything being written exactly if it does not validate, a driver is missing or a call to prepare fails, a control is missing or cannot be read, or the first save fails, each with its own error; otherwise there is no error or one that says what has been undone |
| `TransactionLaws.UndoGoesBackwards` | internal/tuning/transaction.go:143-161 | Every flagged control is attempted exactly once, last one first, whatever fails on the way |
| `TransactionLaws.FailedApplyUndoesInReverse` | internal/tuning/transaction.go:107-125 | A transaction that fails restores exactly the operations it had flagged, in the reverse of the order they were applied in, starting with the one that failed |
| `TransactionLaws.ApplyWritesInOrder` | internal/tuning/transaction.go:107-119 | The writes are those of the sorted operations in order, up to where the loop stopped; an operation whose flag could not be made durable is never written |
| `TransactionLaws.AbsentControlFails` | internal/tuning/driver.go:15-22 | A control that is not there is neither written nor restored |
| `TransactionLaws.CommitReachesRequests` | internal/tuning/transaction.go:94-128 | A successful transaction leaves every requested control at its request and all others at stock, with a durable record that flags them all |
| `TransactionLaws.QuietRollbackFinishes` | internal/tuning/transaction.go:137-169 | One retry without faults restores stock and removes the record |
| `TransactionLaws.QuietRecoveryFinishes` | internal/tuning/transaction.go:232-278 | From any state a crash can leave, with a record of this machine and boot or none, one recovery without faults restores stock and removes the record; that its drivers are there is part of the invariant |
| `TransactionRuns.EveryCrashCanBeRepaired` | internal/tuning/transaction.go:60-278 | So it is wherever a crash strikes any run that has lost nothing |
| `TransactionRecords.ApplyWrites` | internal/tuning/transaction.go:60-129 | Whatever fails, every record stored while a request is applied, and undone, is of this machine, boot and transaction, and lists exactly the controls of the request, each with the driver that offers it and with what the hardware held before the first write; the transaction returned has the same plan, and is active if there is no error |
| `TransactionRecords.CommitWrites` | internal/tuning/transaction.go:94-129 | The same for the write-ahead part, with the phases: applying or active, then rolling back or incomplete |
| `TransactionRecords.RollbackWrites` | internal/tuning/transaction.go:137-169 | The same for a rollback |
| `TransactionLaws.StaleRecordIsReported` | internal/tuning/transaction.go:243-250 | A record is stale exactly if it could be loaded, is of this machine and protocol, and of another boot; then its flagged controls are reported, all of them, in their order, and nothing is touched; otherwise nothing is reported |
| `TransactionLaws.FailureReportsEveryRemainingControl` | internal/tuning/transaction.go:191-224 | The error of a failed rollback splits the controls still flagged into those it read, with what the hardware holds now, and those it could not read |
| `TransactionLaws.SavesAreThoseOfTheFile` | internal/tuning/recovery.go:64-110 | The outcomes of a save that the engine model assumes are exactly those the recovery file guarantees |
| `TransactionTrails.RecoverAtRestStaysAtStock` | internal/tuning/transaction.go:232-278 | Every world a recovery at rest passes through has the hardware at stock |
| `Transaction.ActiveTransaction.Rollback` | internal/tuning/transaction.go:137-169 | The backward loop over mutable flags, record and file does what the specification says, call by call |
| `Transaction.ActiveTransaction.RollbackReport` | internal/tuning/transaction.go:191-224 | The reporting loop likewise |
| `Transaction.ActiveTransaction.ApplyOperations` | internal/tuning/transaction.go:107-127 | The write-ahead loop likewise |
| `Transaction.Engine.SortOperations` | internal/tuning/transaction.go:85 | The sorted operations |
| `Transaction.Engine.PrepareOperations` | internal/tuning/transaction.go:69-84 | The preparation loop and its error cases |
| `Transaction.Engine.CaptureOperations` | internal/tuning/transaction.go:87-93 | The capture loop and its error case |
| `Transaction.Engine.Begin` | internal/tuning/transaction.go:94-128 | The transaction over captured operations, with what is returned to the caller |
| `Transaction.Engine.Apply` | internal/tuning/transaction.go:60-129 | The whole of Apply: new world, returned transaction and error |
| `Transaction.Engine.Recover` | internal/tuning/transaction.go:232-278 | The whole of Recover: new world, success, stale boot and discrepancies |
| `Recovery.RecoveryFile.Save` | internal/tuning/recovery.go:64-110 | After any failure the path holds the old file or the complete new record, and the new one after success; the same holds of what a power loss may leave |
| `Recovery.RecoveryFile.Load` | internal/tuning/recovery.go:49-62 | Loads what is published, tells a missing file from an undecodable one |
| `Recovery.RecoveryFile.Remove` | internal/tuning/recovery.go:112-118 | Removing leaves the file or nothing, and nothing after success |
| `DriverContract.EngineCoversOperation` | internal/tuning/driver.go:8-22 | Whatever an operation under the contract does, and whatever contents it takes the control through one after another, the engine model does for some outcome |
| `DriverContract.UndisturbedIsNotAstray` | internal/tuning/transaction.go:143-161 | An operation that keeps a control in place while restoring it loses no evidence, whether its driver rewrites or not |
| `DriverContract.VoltageKeepsContract` | internal/tuning/driver.go:15-22 | Voltage operations keep the contract the engine relies on, and restoring what is in place disturbs nothing |
| `DriverContract.PowercapKeepsContract` | internal/tuning/driver.go:15-22 | Powercap operations keep it; restoring limits in place disturbs nothing if the writes of the store leave the old value or the new |
| `DriverContract.PolicyKeepsContract` | internal/tuning/driver.go:15-22 | Energy preference operations keep it, and restoring what is in place disturbs nothing, whatever fails |
| `DriverContract.RatioKeepsContract` | internal/tuning/driver.go:15-22 | Ratio operations keep it, and a refused request changes nothing; restoring a register in place disturbs nothing if the write lands |
| `DriverContract.ThermalKeepsContract` | internal/tuning/driver.go:15-22 | Thermal operations keep it if the interfaces agreed at the capture, likewise |
| `SessionLaws.EverySessionConcludes` | internal/privilege/session/server.go:99-251 | Over every session: active implies probed implies greeted; a session that ends with a transaction outstanding has tried to roll it back; one that ends without error has none outstanding |
| `SessionLaws.TurnConcludes` | internal/privilege/session/server.go:99-249 | The same for one turn of the loop, whatever arrives and whatever fails |
| `SessionEnds.EndsCleanlyIff` | internal/privilege/session/server.go:99-249 | A turn ends the session without an error exactly if nothing is outstanding afterwards and it was the end of the input, or the lease or a valid close whose answer has been delivered |
| `SessionEnds.GoesOnIff` | internal/privilege/session/server.go:110-249 | The transitions: for every input, exactly when the session goes on after it |
| `SessionEnds.ProbeGoesOnIff` | internal/privilege/session/server.go:149-171 | A probe goes on exactly if both discoveries are complete, the recovery between them succeeds on no record or one of this boot, and the capabilities are delivered, which are those of the second discovery |
| `SessionEnds.BeginGoesOnIff` | internal/privilege/session/server.go:172-217 | A begin message goes on exactly if the discovery before it is complete and its answer delivered; a set other than that just found applies nothing |
| `SessionLaws.EveryBeginStartsAtRest` | internal/privilege/session/server.go:149-186 | Whenever a session can begin a transaction, the hardware is at stock and no record asks for a restoration |
| `SessionLaws.FirstRollbackIsTimely` | internal/privilege/session/server.go:114-136 | A transaction nobody has tried to roll back is never older than one lease period after its last renewal, nor than 4094 periods after it began; a session takes at most 8193 turns |
| `SessionLaws.EverySessionKeepsClock` | internal/privilege/session/server.go:71-136 | The invariants of lease, renewals and seen identifiers behind that, and the bound on turns |
| `SessionLaws.TurnKeepsClock` | internal/privilege/session/server.go:99-249 | Every turn that goes on uses up a request or the lease |
| `SessionLaws.FailedRollbackStaysUnleased` | internal/privilege/session/server.go:79-89 | While a transaction is outstanding the lease is armed exactly if no rollback of it has been tried; so never again after one has failed |
| `SessionLaws.TurnKeepsAttempted` | internal/privilege/session/server.go:79-89 | A turn that leaves a transaction outstanding whose rollback has been tried leaves it so: the same transaction, still tried |
| `SessionLaws.AttemptedStays` | internal/privilege/session/server.go:79-251 | Over any number of turns through which a transaction stays outstanding, once a rollback of it has been tried the session stays with that transaction and that mark, so without a lease |
| `SessionLaws.RenewalIsTakenIff` | internal/privilege/session/server.go:218-231 | A renewal under the number of a leased transaction, with a fresh identifier below the limit, moves the deadline to one period from now and leaves everything else alone; any other ends the session with an error |
| `SessionLaws.RenewedTransactionStays` | internal/privilege/session/server.go:71-136 | A transaction renewed within every period never has its lease fire, however often the timer is looked at: transaction, world and replies stay, and the deadline is one period after the last renewal |
| `SessionLaws.UnrenewedLeaseFires` | internal/privilege/session/server.go:114-136 | At the deadline of a lease nothing but a turn can come next; the turn of the timer attempts every flagged control, last one first, reports it, and leaves no lease |
| `SessionReplies.TurnTold` | internal/privilege/session/server.go:90-249 | After a probe, the replies that mean "no transaction outstanding" are only sent with the hardware at stock; a turn sends at most one reply, under the identifier it answers |
| `SessionAnswers.TurnAnswers` | internal/privilege/session/server.go:90-249 | Every reply answers what came in, and is so: the capabilities it shows are those just found, the transaction it announces is the one outstanding with the values now in force, a review is asked for only if the set has changed, and an incomplete rollback reports every control still flagged |
| `Session.Server.Run` | internal/privilege/session/server.go:49-251 | The loop over mutable state runs the specified session for every sequence of inputs |
| `Session.Server.Select` | internal/privilege/session/server.go:99-136 | One pass of the select |
| `Session.Server.HandleRequest` | internal/privilege/session/server.go:137-246 | The transitions, invalid ones included |
| `Session.Server.HandleProbe` | internal/privilege/session/server.go:145-171 | Probe, recover, probe again, and publish |
| `Session.Server.HandleBegin` | internal/privilege/session/server.go:172-186 | The checks before a transaction |
| `Session.Server.ApplyChanges` | internal/privilege/session/server.go:187-217 | The transaction and what is reported of it |
| `Session.Server.ReportBegun` | internal/privilege/session/server.go:189-217 | The answer to a begin message, and the lease |
| `Session.Server.HandleRestore` | internal/privilege/session/server.go:232-245 | Revert and close |
| `Session.Server.Fail` | internal/privilege/session/server.go:98-109 | A fatal error restores before it reports |
| `Session.Server.Rollback` | internal/privilege/session/server.go:79-89 | Stops the lease, restores, and forgets the transaction only on success |
| `ClientSpec.EveryRunIsCoherent` | internal/privilege/client/client.go:272-424 | Over every run: an answer once given stays; nothing is pending or registered once dead; the terminal event ends the bounded stream and is never evicted |
| `ClientSpec.ConnectedIsCoherent` | internal/privilege/client/client.go:69-88 | So it is of every client, which begins alive, knowing nothing, with an open and empty stream |
| `ClientSpec.ActKeepsCoherent` | internal/privilege/client/client.go:272-424 | The same for one critical section |
| `ClientSpec.NewsIsStreamed` | internal/privilege/client/client.go:338-376 | Unsolicited messages and the end of the connection become the newest event, at the price of the oldest waiting one at most |
| `ClientSpec.AnswersArriveOnce` | internal/privilege/client/client.go:315-386 | A request is answered at most once, into an empty channel, only while it is pending; and stops being pending by being answered or given up |
| `ClientSpec.ReceivedIsHandedOver` | internal/privilege/client/client.go:315-350 | A message goes to the request waiting for it, and to nobody else; one that nobody waits for is left to be announced |
| `ClientSpec.RegistersIff` | internal/privilege/client/client.go:272-293 | A request is registered exactly by a living client; only one that begins a transaction makes it forget what it knows of rollbacks |
| `ClientSpec.RevertAsksIff` | internal/privilege/client/client.go:144-158 | When Revert is refused, has nothing to do, or asks |
| `Client.Connection.RegisterRequest` | internal/privilege/client/client.go:272-282 | A dead client registers nothing; a begin message forgets earlier evidence |
| `Client.Connection.Deliver` | internal/privilege/client/client.go:322-337 | Evidence, correlation and hand-over; the channel is empty, so the reader cannot block |
| `Client.Connection.AnnounceMessage` | internal/privilege/client/client.go:338-349 | Unsolicited messages become events |
| `Client.Connection.FailPending` | internal/privilege/client/client.go:359-386 | Ends the connection once; everyone waiting is answered and no channel is full |
| `Client.Connection.EnqueueEvent` | internal/privilege/client/client.go:411-424 | The oldest event gives way when the stream is full |
| `Client.Connection.RemovePending` | internal/privilege/client/client.go:353-357 | Forgets a request |
| `Client.Connection.NoteBegun` | internal/privilege/client/client.go:133-140 | A transaction acknowledged after death is not taken up |
| `SystemSafety.SessionClosedIsTrue` | internal/privilege/client/client.go:359-376 | For helper, pipes and client together, in every reachable state after a successful handshake: if the client holds "restored", or its stream ends in session_closed, the hardware is at stock, however the helper died |
| `SystemSafety.RevertIsTrue` | internal/privilege/client/client.go:144-165 | Likewise if Revert would return success without asking, or is answered that the rollback is complete |
| `SystemSafety.CloseIsTrue` | internal/privilege/client/client.go:167-209 | Likewise if the helper has exited cleanly, which Close needs in order to return no error |
| `SystemSafety.UnvettedClaimIsFalse` | internal/privilege/client/client.go:359-376 | Without a successful handshake the event can be wrong: a run over any leftovers of a crash that greets, closes, and is told that stock settings are restored |
| `SystemSafety.LeftoversExist` | internal/privilege/client/client.go:359-376 | Such leftovers exist |
| `SystemSafety.EveryRunIsSafe` | internal/ui/tune_service.go:110-263 | The invariant behind these claims holds over every interleaving of the sixteen steps, with requests serialised as the service does |
| `SystemLives.EveryHelperTellsTheTruth` | internal/privilege/client/client.go:359-376 | The claims of the rows above hold of every helper in a chain of any length, each launched over what its predecessor left wherever that was ended, with reboots between them, unless one before it has lost evidence |
| `SystemLives.EveryHelperFindsEvidence` | internal/tuning/transaction.go:232-278 | Each helper of such a chain finds a world with complete evidence, under the same condition |
| `SystemLives.OneLife` | internal/tuning/transaction.go:232-278 | One helper, launched over complete evidence and ended at any step, reaches only states the invariant covers and leaves complete evidence unless it has lost some |
| `SystemLives.EveryRunIsRecorded` | internal/tuning/transaction.go:60-278 | The world is evident at every step of every interleaving, and so is every world the turn in progress still leads through, until evidence is lost |
| `SystemSafety.DoIsSafe` | internal/ui/tune_service.go:110-263 | Each step keeps it |
| `SystemSafety.TurningIsSafe` | internal/privilege/session/server.go:110-249 | A helper turn keeps it |
| `SystemSafety.CompletingIsSafe` | internal/privilege/client/client.go:294-299 | Taking up an answer keeps it |
| `SystemSafety.DyingIsSafe` | internal/privilege/client/client.go:359-386 | The loss of the connection keeps it |
| `SystemSafety.RenewalWritingIsSafe` | internal/privilege/client/client.go:228-241 | A renewal, sent at any moment with a transaction number read earlier, keeps it |
| `SystemSafety.ReaderTakingIsSafe` | internal/privilege/client/client.go:322-331 | A message crossing any other keeps it |
| `SystemSafety.ClosingLateIsSafe` | internal/ui/tune_service.go:351-383 | Closing a client whose connection is lost, even while one of its requests is in progress, keeps it |
| `SystemSafety.RequestingIsSafe` | internal/privilege/client/client.go:144-209 | Registering a request keeps it, even if what the caller decided by has changed since |
| `SystemRenewals.RenewalsAreTaken` | internal/privilege/client/client.go:119-142 | In every reachable state the number a client holds is one the helper has acknowledged; while the helper has a leased transaction it is the number of that one, so a renewal under it is taken |
| `SystemRenewals.RenewalsAreSent` | internal/privilege/client/client.go:228-241 | A renewal that goes through asks for the transaction the client held |
| `SystemRenewals.EveryRunIsMatched` | internal/privilege/client/client.go:119-242 | The invariant behind that holds over every interleaving: the number held, and one about to be taken up, is that of the outstanding transaction, or a completed revert is on its way |
| `SystemRenewals.TurnIsCarried` | internal/privilege/session/server.go:110-249 | A turn that goes on keeps the outstanding transaction, unless it answers a revert; a new one answers a begin message; what is announced is outstanding |
| `SystemRenewals.RenewalAfterRevertIsFatal` | internal/privilege/session/server.go:218-231 | A renewal that arrives when nothing is outstanding ends the session with an error, and leaves the world alone |
| `SourceSpec.WriteIsAllOrUndone` | internal/tuning/intel/powercap/operation.go:68-79 | Success leaves every source at its target; failure leaves off its captured value only the source it failed at and those whose undo failed, which are named; no other path is written |
| `SourceSpec.UndoPutsBack` | internal/tuning/intel/powercap/operation.go:114-122 | Each source undone is back at its snapshot or named as failed |
| `SourceSpec.RestoreIsTrue` | internal/tuning/intel/powercap/operation.go:96-111 | A restoration that succeeds leaves each recorded path at its value, and writes recorded, allowed paths only |
| `SourceSpec.RestoreIsGentle` | internal/tuning/intel/policy/epp.go:268-275 | Restoring what is in place disturbs nothing, whatever fails, if equal values are not rewritten |
| `SourceSpec.RestoreIsGentleIfFaithful` | internal/tuning/intel/powercap/operation.go:139-152 | Rewriting equal values changes nothing at any instant on a store whose writes do not go astray |
| `SourceSpec.RoughRestoreDisturbs` | internal/tuning/intel/powercap/operation.go:139-152 | On another store it can |
| `SourceSpec.QuietRestoreSucceeds` | internal/tuning/intel/powercap/operation.go:83-112 | Without faults a restoration of known paths succeeds |
| `SourceSpec.CaptureIsTrue` | internal/tuning/intel/powercap/operation.go:40-57 | A snapshot holds what the sources held, in their order |
| `PowercapSpec.ApplyKeepsItsPromise` | internal/tuning/intel/powercap/operation.go:59-81 | A successful Apply leaves every source at the request and answers with the lowest limit in force; one that fails while writing is undone; one that fails only in reading the result leaves every source at the request |
| `PowercapSpec.LastReadCanFail` | internal/tuning/intel/powercap/operation.go:80 | That last case happens |
| `PowercapSpec.RestoreUndoesApply` | internal/tuning/intel/powercap/operation.go:40-112 | Capture, any Apply, and a Restore that succeeds: all files are as before |
| `PowercapSpec.QuietRestorePutsBack` | internal/tuning/intel/powercap/operation.go:83-112 | Without faults Restore succeeds and puts everything back |
| `PowercapSpec.QuietApplySucceeds` | internal/tuning/intel/powercap/operation.go:59-81 | Without faults Apply brings every source to the request and answers with the lowest limit |
| `PowercapSpec.RestoreNeverDisturbs` | internal/tuning/intel/powercap/operation.go:83-112 | Restoring sources at their snapshot changes nothing at any instant if the writes of the store leave the old value or the new |
| `PowercapSpec.EffectiveIsLowest` | internal/tuning/intel/powercap/operation.go:124-137 | The value read back is the least limit of all sources |
| `PowercapSpec.TargetIsNearest` | internal/tuning/intel/powercap/operation.go:73 | The value written is the whole number of source units nearest to the request |
| `Powercap.PowercapOperation.Apply` | internal/tuning/intel/powercap/operation.go:59-81 | The loop over sources with its partial undo |
| `Powercap.PowercapOperation.Restore` | internal/tuning/intel/powercap/operation.go:83-112 | The backward loop with its early returns |
| `Powercap.PowercapOperation.Capture` | internal/tuning/intel/powercap/operation.go:40-57 | The capture loop |
| `Powercap.PowercapOperation.RollbackWritten` | internal/tuning/intel/powercap/operation.go:114-122 | The undo loop |
| `Powercap.PowercapOperation.EffectiveValue` | internal/tuning/intel/powercap/operation.go:124-137 | The reading loop |
| `Powercap.PowercapOperation.WriteAndVerify` | internal/tuning/intel/powercap/operation.go:139-152 | Write, read back, compare |
| `PolicySpec.ApplyKeepsItsPromise` | internal/tuning/intel/policy/epp.go:212-229 | Apply succeeds exactly when every policy holds the request; otherwise only the failing policy and those whose undo failed are off |
| `PolicySpec.RestoreUndoesApply` | internal/tuning/intel/policy/epp.go:196-257 | Capture, any Apply, and a Restore that succeeds: all files are as before |
| `PolicySpec.RestoreNeverDisturbs` | internal/tuning/intel/policy/epp.go:231-257 | Restoring policies that hold their snapshot disturbs nothing, whatever fails |
| `PolicySpec.QuietApplySucceeds` | internal/tuning/intel/policy/epp.go:212-229 | Without faults Apply succeeds and brings every policy to the request |
| `PolicySpec.QuietRestorePutsBack` | internal/tuning/intel/policy/epp.go:231-257 | Without faults Restore succeeds and puts every policy back |
| `PolicySpec.MixedIsMixed` | internal/tuning/intel/policy/epp.go:289-304 | "mixed" is answered only if two policies differ, or one holds this very word |
| `PolicySpec.IncompleteSnapshotLeavesTheRest` | internal/tuning/intel/policy/epp.go:231-257 | The number of records is not checked: policies without one are left as they are, success or not |
| `PolicySpec.EffectiveIsShared` | internal/tuning/intel/policy/epp.go:289-304 | A preference other than "mixed" is held by every policy, empty ones apart |
| `PolicySpec.IntersectIsCommon` | internal/tuning/intel/policy/epp.go:306-314 | The common choices |
| `Policy.PolicyOperation.Apply` | internal/tuning/intel/policy/epp.go:212-229 | The loop over policies |
| `Policy.PolicyOperation.Restore` | internal/tuning/intel/policy/epp.go:231-257 | The backward loop |
| `Policy.PolicyOperation.Rollback` | internal/tuning/intel/policy/epp.go:259-266 | The undo loop |
| `Policy.PolicyOperation.WriteChoice` | internal/tuning/intel/policy/epp.go:268-287 | Write only what differs, then verify |
| `Policy.PolicyOperation.EffectivePreference` | internal/tuning/intel/policy/epp.go:289-304 | The reading loop |
| `Policy.PolicyOperation.Capture` | internal/tuning/intel/policy/epp.go:196-210 | The capture loop |
| `Policy.IntersectChoices` | internal/tuning/intel/policy/epp.go:306-314 | The intersection loop |
| `VoltageCodec.OffsetRoundTrips` | internal/tuning/intel/msr/voltage.go:16-35 | An offset is accepted exactly between -250 and 0 mV; its field decodes to the normalised value, within half a unit of the request, which encodes to itself |
| `VoltageCodec.FieldInvertsDecode` | internal/tuning/intel/msr/voltage.go:29-35 | Every field is that of the number it decodes to |
| `VoltageCodec.CommandHoldsItsParts` | internal/tuning/intel/msr/voltage.go:37-49 | The parts of a mailbox command do not overlap |
| `VoltageCodec.CommandsAreRefused` | internal/tuning/intel/msr/voltage.go:37-53 | Planes other than 0 and 2, and offsets beyond their field, make no command |
| `VoltageCodec.LegacyAgrees` | main.go:225-242 | The older codec encodes every number alike and decodes alike every word but those of one field, the most negative number |
| `VoltageSpec.WaypointsMarch` | internal/tuning/intel/msr/voltage.go:185-188 | The stepwise route: a tenth of the distance rounded up, no stretch over ten units, none backwards, ending at the target |
| `VoltageSpec.StepToArrives` | internal/tuning/intel/msr/voltage.go:169-199 | Commands follow that route and always encode; the offset stays between start and target; success means arrival by the whole route |
| `VoltageSpec.ApplyStaysBetween` | internal/tuning/intel/msr/voltage.go:141-152 | At every instant of Apply and of its undoing the offset is between captured and requested; success is arrival; after a failure, stepping back successfully ends at the captured offset |
| `VoltageSpec.UncapturedIsNotApplied` | internal/tuning/intel/msr/voltage.go:141-152 | Nothing is written before a capture |
| `VoltageSpec.CaptureIsRestorable` | internal/tuning/intel/msr/voltage.go:126-139 | An offset can be captured exactly when it can be restored exactly |
| `VoltageSpec.RestorePutsBack` | internal/tuning/intel/msr/voltage.go:154-167 | A restoration that succeeds puts the captured offset back; one already in force sends nothing |
| `VoltageSpec.QuietRestoreArrives` | internal/tuning/intel/msr/voltage.go:154-199 | Without faults every offset in range is reached from every other |
| `VoltageSpec.WriteIsVerified` | internal/tuning/intel/msr/voltage.go:76-99 | A write takes effect or not; success means that it has been read back |
| `Voltage.VoltageOperation.MoveTo` | internal/tuning/intel/msr/voltage.go:169-199 | The stepping loop |
| `Voltage.VoltageOperation.Apply` | internal/tuning/intel/msr/voltage.go:141-152 | Apply over the mutable device |
| `Voltage.VoltageOperation.Restore` | internal/tuning/intel/msr/voltage.go:154-167 | Restore over the mutable device |
| `Voltage.VoltageOperation.Capture` | internal/tuning/intel/msr/voltage.go:126-139 | Capture over the mutable device |
| `Voltage.Device.Write` | internal/tuning/intel/msr/voltage.go:76-99 | The mailbox write with its read-back |
| `RatioSpec.EncodingRoundTrips` | internal/tuning/intel/msr/ratio.go:12-49 | Decoding the encoded register gives exactly the request; bytes above are unchanged; 64 bits suffice |
| `RatioSpec.RatiosAreBytes` | internal/tuning/intel/msr/ratio.go:12-24 | Ratios are the bytes of the register from the lowest one up; a count is cut between zero and eight |
| `RatioSpec.EncodingIsRestorable` | internal/tuning/intel/msr/ratio.go:85-133 | What Apply writes is descending, positive, no higher than what was in force, and so can be restored |
| `RatioSpec.ApplySetsRatios` | internal/tuning/intel/msr/ratio.go:85-109 | Success means the requested ratios are in force and all other bytes unchanged; a refused request changes nothing |
| `RatioSpec.QuietApplySucceedsIff` | internal/tuning/intel/msr/ratio.go:30-109 | Without faults Apply succeeds exactly for whole ratios from 1 to 255, one for each in the register, that do not ascend and do not exceed those in force |
| `RatioSpec.QuietRestoreSucceedsIff` | internal/tuning/intel/msr/ratio.go:111-133 | Without faults Restore succeeds exactly if the captured ratios are positive and do not ascend |
| `RatioSpec.RestorePutsBack` | internal/tuning/intel/msr/ratio.go:111-133 | Success puts the captured register back; a snapshot whose ratios are not positive and descending is always refused |
| `Ratio.EncodePreserving` | internal/tuning/intel/msr/ratio.go:30-49 | The encoding loop with its refusals |
| `Ratio.DecodeRatios` | internal/tuning/intel/msr/ratio.go:12-24 | The decoding loop |
| `Ratio.RatioOperation.Apply` | internal/tuning/intel/msr/ratio.go:85-109 | Read, modify, write, verify |
| `Ratio.RatioOperation.Restore` | internal/tuning/intel/msr/ratio.go:111-133 | Validate, write, verify |
| `ThermalSpec.ApplySetsBoth` | internal/tuning/intel/thermal/tcc.go:244-253 | Success means that both interfaces show the requested ceiling; one out of range changes nothing |
| `ThermalSpec.QuietApplySucceedsIff` | internal/tuning/intel/thermal/tcc.go:244-253 | Without faults Apply succeeds exactly for ceilings in the kernel's range |
| `ThermalSpec.QuietRestoreSucceeds` | internal/tuning/intel/thermal/tcc.go:255-264 | Without faults Restore brings both interfaces to any snapshot |
| `ThermalSpec.RestoreUndoesApplyIff` | internal/tuning/intel/thermal/tcc.go:233-264 | A successful restoration puts both interfaces back exactly when they agreed at the capture |
| `ThermalSpec.OfferedCeilingIsInRange` | internal/tuning/intel/thermal/tcc.go:65-72 | Every ceiling on offer is within the kernel's range |
| `ThermalSpec.WholeCeilingIsOffered` | internal/tuning/intel/thermal/tcc.go:65-72 | And every whole one within it is on offer, unless it is below zero |
| `Thermal.TccOperation.WriteOffset` | internal/tuning/intel/thermal/tcc.go:266-282 | Write once, read back twice |
| `Thermal.TccOperation.Apply` | internal/tuning/intel/thermal/tcc.go:244-253 | Apply over the mutable store |
| `Thermal.TccOperation.Restore` | internal/tuning/intel/thermal/tcc.go:255-264 | Restore over the mutable store |
| `TimeWindowSpec.FromProductIsNearest` | main.go:413-439 | Between 7/8 and 1.75*2^31 units the code is as near as any of the 128, and within an eighth of the window or of one unit |
| `TimeWindowSpec.FitsExactlyBetween` | main.go:413-439 | Any window at all: it gets one of the 128 codes, or the saturated value exactly from 1.75*2^31 units on, or a spilled negative exponent exactly if it is positive and at most 7/8 of a unit |
| `TimeWindowSpec.CodesRoundTrip` | main.go:386-439 | A code comes back from the window it stands for exactly when it is not 0x7f |
| `TimeWindowSpec.WindowOfCode` | main.go:386-388 | A code stands for a power of two, from its low five bits, times one, 1.25, 1.5 or 1.75 |
| `TimeWindow.FromUnits` | main.go:413-439 | The search over four values of Z |
| `TimeWindow.FromSeconds` | main.go:413-439 | The same in seconds |
| `TimeWindow.ToSeconds` | main.go:386-388 | The window of a code |
| `PowerLimitSpec.ShortHalfIsKept` | main.go:441-504 | Setting the long-term half goes through exactly if the register is unlocked and the power fits. It keeps every bit of the short-term half exactly if the time code there is not 0x7f and the window here not positive and at most 7/8 of a unit; such a window sets every bit there, the lock among them, and otherwise the lock is as asked |
| `PowerLimitSpec.LongHalfIsKept` | main.go:441-504 | Setting the short-term half goes through under the same condition and keeps every bit of the long-term half exactly if the time code there is not 0x7f; the register is then locked exactly if asked or if the window is that short |
| `PowerLimitSpec.HalfAMillisecondLocks` | main.go:460-504 | 35 W for half a millisecond, with the usual units, overwrites the short-term half and locks the register, whatever it held, and gives the long-term half the longest window there is |
| `PowerLimitSpec.JoinHalvesIsOr` | main.go:474-491 | Joining halves field by field is the bitwise or of their words |
| `PowerLimitSpec.UnaskedHalfIsKept` | main.go:453-486 | A half that is not asked for is rebuilt bit by bit exactly if its time code is not 0x7f, and touches nothing above it |
| `PowerLimitSpec.AskedHalfIsSet` | main.go:460-491 | A half that is asked for is refused exactly if its power does not fit; else it takes its power and the code of its window and keeps its reserved bits; a longer window costs the lowest of them unless it is set already; one too short for a code sets the topmost and the whole word above |
| `PowerLimitSpec.PowerFieldIsWhole` | main.go:460-471 | The power field is the greatest whole number of units not above the watts asked for |
| `PowerLimitSpec.RegisterWordsParse` | main.go:390-411 | The fields cover the register and do not overlap |
| `PowerLimitSpec.FieldsLieWhereTheManualPutsThem` | main.go:390-411 | Power, enable, clamp, window and lock lie in the bits the Intel SDM gives them |
| `PowerLimit.WritePowerLimit` | main.go:441-504 | The register as it is read, checked, and built anew |
| `PowerLimit.RenewHalf` | main.go:453-471 | One half of it, with its range check |
| `DiscoverySpec.PreferenceIsByRank` | internal/tuning/discovery.go:116-151 | The preference is a strict lexicographic order: supported by the kernel, supported, unsupported; then driver priority |
| `DiscoverySpec.BuiltInDriversWinInOrder` | internal/tuning/discovery.go:116-151 | Between powercap, energy preference, thermal and MSR drivers an offer that can be set wins, and otherwise the one named first; each of them wins over other drivers alike |
| `DiscoverySpec.OrderDoesNotMatterIff` | internal/tuning/discovery.go:67-91 | The merged set is the same for every completion order of the drivers exactly when drivers that tie for the best offer of a control offer the same |
| `DiscoverySpec.DistinctPrioritiesAreUnambiguous` | internal/tuning/discovery.go:67-91 | So it is when ranks differ between drivers |
| `DiscoverySpec.BuiltInDriversAreUnambiguous` | internal/tuning/discovery.go:116-151 | So it is for the four drivers the program registers, from their names, if each answers once and for itself |
| `DiscoverySpec.MergedLeads` | internal/tuning/discovery.go:78-86 | What is merged is some driver's best offer, and nobody offers better |
| `DiscoverySpec.ListIsCanonical` | internal/tuning/discovery.go:153-162 | There is only one ascending list of a merged set |
| `Discovery.RunDiscovery` | internal/tuning/discovery.go:65-97 | One publication for each answer until the run is given up, each with the list of what is merged so far |
| `Discovery.TakeAnswer` | internal/tuning/discovery.go:78-86 | The merge loop |
| `Discovery.ImmutableSet` | internal/tuning/discovery.go:153-162 | The list is ascending and complete |
| `Validate.RevalidationIsIdentity` | internal/tuning/validate.go:8-67 | Revalidating an accepted change set accepts it unchanged, with no adjustments, if every range settles |
| `Validate.PassesIffAcceptable` | internal/tuning/validate.go:8-67 | A change set passes exactly when it is acceptable, in terms of kinds, ranges, choices and limits; what passes is addressed alike and is the only set with the nearest value in place of each request |
| `Validate.FirstErrorIsReported` | internal/tuning/validate.go:8-67 | The error of any other is that of the wrong set, of the first change at fault, for its one reason, or else of the power limits |
| `Validate.AcceptedSetReportsAdjustments` | internal/tuning/validate.go:53-61 | The adjustments are those of the changes whose value was moved by more than the tolerance, all of them, in their order |
| `Validate.ByIdHoldsTheLast` | internal/tuning/validate.go:20-23 | Of several capabilities with one identifier the last one counts |
| `Validate.RatiosAreSafeIff` | internal/tuning/validate.go:69-85 | Ratios pass exactly if there is one for each current one, none above it, and none above an earlier one, up to the tolerance |
| `Validate.AcceptedSetIsOrdered` | internal/tuning/validate.go:8-107 | In an accepted set no control repeats, order is kept, and PL1 will be at most PL2 within tolerance, whether requested or current |
| `Validate.ValidateChangeSet` | internal/tuning/validate.go:8-67 | The validation loop with its error cases in order |
| `Validate.ValidateRatio` | internal/tuning/validate.go:69-85 | The ratio check, in both directions |
| `Validate.FindNumeric` | internal/tuning/validate.go:96-107 | The value a control will have |
| `Model.SettleIsFixed` | internal/tuning/model.go:140-164 | Normalising a normalised number changes nothing, even with a maximum off the grid |
| `Model.SettleIsMonotone` | internal/tuning/model.go:140-164 | Normalising keeps order |
| `Model.SettleIsNear` | internal/tuning/model.go:140-164 | The result is within half a step of the clamped request |
| `Model.NormalizeIsIdempotentIffSettles` | internal/tuning/model.go:109-164 | Normalising is idempotent on all requests exactly when the range settles, a condition on the range alone |
| `Model.NormalizePassesIff` | internal/tuning/model.go:109-164 | A request passes exactly if the control can be set and takes its kind: a number, not above zero for voltages, over a valid range; a choice on offer; a vector that is not empty. A number becomes the nearest one and counts as adjusted exactly if it moved by more than the tolerance; anything else stays |
| `Model.NormalizeRefusesIff` | internal/tuning/model.go:109-164 | Each error has its own condition, and exactly one applies to a request that does not pass |
| `Model.SettleIsNearestIff` | internal/tuning/model.go:140-164 | The substitute for a number is the grid point nearest to the request cut to the range, the upper of two, cut to the maximum, and zero if it is nearly so; there is no other |
| `Model.OrdinaryMaximumSettles` | internal/tuning/model.go:140-164 | Ranges whose maximum is not tiny settle |
| `Model.TinyMaximumDoesNotSettle` | internal/tuning/model.go:140-164 | A range that does not |
| `SchedulerSpec.EveryRunIsRegular` | internal/telemetry/scheduler.go:313-476 | Over every run with any subscriptions, wake-ups, rediscoveries, failures and publications: attempts at a metric are spaced by the demand read for the later one, which was no less than the minimum then in force, even if subscriptions change between the reading and the attempt; deliveries of a metric to a subscriber by its interval |
| `SchedulerSpec.SubscriptionsComeAndGo` | internal/telemetry/scheduler.go:265-291 | A subscription comes under an identifier never used before, and goes alone; stopping ends them all |
| `SchedulerSpec.StoppedIsForGood` | internal/telemetry/scheduler.go:478-489 | Once stopped, a scheduler never serves anybody again, whatever follows |
| `SchedulerSpec.AttemptKeepsPace` | internal/telemetry/scheduler.go:330-352 | One attempt of a worker keeps that |
| `SchedulerSpec.DueIsAttempted` | internal/telemetry/scheduler.go:330-352 | An attempt is made of exactly the metrics demanded whose interval has passed, all at once, each at the demand read |
| `SchedulerSpec.RestsGrow` | internal/telemetry/scheduler.go:358-396 | The rests after failures in a row are 250, 500, 1000, 2000 and then 5000 ms, and start over with a success |
| `SchedulerSpec.ReadingKeepsPace` | internal/telemetry/scheduler.go:318-325 | So does reading the demands |
| `SchedulerSpec.PublishingServes` | internal/telemetry/scheduler.go:407-433 | A publication delivers exactly the first sample of each metric that the subscriber wants and whose interval has passed, readings included, in the order of the frame; that, if anything, is what the slot then holds and what is logged; nothing else is touched |
| `SchedulerSpec.ClampIsBounded` | internal/telemetry/scheduler.go:500-511 | An interval, or 250 ms if none is asked for, is brought into bounds, and left alone within them |
| `SchedulerSpec.DemandsAreShortest` | internal/telemetry/scheduler.go:435-465 | A metric is demanded of its provider exactly if somebody subscribes to it, at the shortest interval anybody asks for, or at the least it allows if that is longer |
| `SchedulerSpec.UniqueKeepsFirsts` | internal/telemetry/scheduler.go:526-537 | Each metric is kept exactly where it comes first, in the order given |
| `Scheduler.Subscription.DeliverLatest` | internal/telemetry/delivery.go:3-20 | The slot then holds the frame, whatever the subscriber does meanwhile; something is dropped exactly if the old frame was still there |
| `Scheduler.Subscription.Publish` | internal/telemetry/scheduler.go:414-432 | The filter loop for one subscriber |
| `Scheduler.Registry.Publish` | internal/telemetry/scheduler.go:407-433 | Every subscriber is offered the frame, in any order |
| `Scheduler.Registry.DemandsFor` | internal/telemetry/scheduler.go:435-465 | The demands are exactly what is wanted of the provider, at the shortest interval asked for and allowed |
| `Scheduler.Registry.AddDemands` | internal/telemetry/scheduler.go:442-458 | One subscription's part in that |
| `Scheduler.Registry.Subscribe` | internal/telemetry/scheduler.go:265-291 | A new subscription with unique metrics and a bounded interval, unless stopped |
| `Scheduler.Registry.Unsubscribe` | internal/telemetry/scheduler.go:467-476 | Only that subscription goes |
| `Scheduler.Registry.CloseAll` | internal/telemetry/scheduler.go:478-489 | Nothing stays subscribed, and nothing can be |
| `Scheduler.ProviderWorker.Choose` | internal/telemetry/scheduler.go:325-352 | The due-time loop |
| `Scheduler.ProviderWorker.ReadDemands` | internal/telemetry/scheduler.go:318-325 | Reads the demands of the moment, and the minimum with them |
| `Scheduler.ProviderWorker.NoteFailure` | internal/telemetry/scheduler.go:358-396 | The rest after a failure, and the next one |
| `Scheduler.UniqueMetricIds` | internal/telemetry/scheduler.go:526-537 | Duplicates are dropped, the first of each kept |
| `CodecSpec.ReadAllInvertsWriteAll` | internal/privilege/protocol/codec.go:34-94 | Reading everything written gives exactly the messages, then the end |
| `CodecSpec.TruncationKeepsCompleteMessages` | internal/privilege/protocol/codec.go:34-58 | Any truncation gives exactly the complete leading messages and then an end or an error; it looks like a proper end exactly at a frame boundary or right after a header |
| `CodecSpec.ReadInvertsWrite` | internal/privilege/protocol/codec.go:34-94 | One message comes back and what follows is left |
| `CodecSpec.FrameIs` | internal/privilege/protocol/codec.go:73-94 | A message is written exactly if it passes validation and has between one byte and a mebibyte, after a length of four bytes, the highest first |
| `Codec.ByteSource.ReadFull` | internal/privilege/protocol/codec.go:34-50 | Filling a buffer does not depend on how the bytes arrive |
| `Codec.ByteSource.ReadMessage` | internal/privilege/protocol/codec.go:34-58 | One read, with its error cases |
| `Codec.ByteSource.ReadMessages` | internal/privilege/protocol/codec.go:34-58 | Reads up to the first error |
| `Codec.ByteSink.WriteMessage` | internal/privilege/protocol/codec.go:73-94 | Success writes the whole frame, failure a beginning of it or nothing |
| `HistorySpec.DownsampledIsFaithful` | internal/telemetry/history/downsample.go:6-40 | At most two samples a column, a chronological subsequence, none outside whose range any sample lies |
| `HistorySpec.PickedBracketsEach` | internal/telemetry/history/downsample.go:18-38 | Each bucket keeps something no greater and something no less than anything in it |
| `HistorySpec.ExtremaAreFirst` | internal/telemetry/history/downsample.go:24-31 | The samples found in a bucket are its first least and its first greatest |
| `HistorySpec.PickedIsShort` | internal/telemetry/history/downsample.go:16-18 | At most two samples a bucket |
| `HistorySpec.PickedAscends` | internal/telemetry/history/downsample.go:24-38 | What is kept is in the order in which it was sampled |
| `History.Ring.Append` | internal/telemetry/history/ring.go:24-32 | The window over the whole history moves by one |
| `History.Ring.Snapshot` | internal/telemetry/history/ring.go:35-44 | The last samples of the whole history, at most the capacity |
| `History.DownsampleMinMax` | internal/telemetry/history/downsample.go:6-40 | The reduction and its short cuts |
| `History.FindExtrema` | internal/telemetry/history/downsample.go:24-31 | The first least and the first greatest of a bucket |

## Left out

- Floating point: numbers are exact reals or whole mailbox units; the source rejects NaN and infinities before the
  arithmetic modelled here, except in samples, whose values are taken to be comparable.
- JSON, hashes, random identifiers: snapshots and hardware contents are abstract numbers, messages an abstract
  invertible coding, transaction identifiers given from outside, request identifiers only compared.
- Whether a Restore leaves alone what is in place is a property of each control, `gentle`, and not derived from the
  driver's code inside the engine; `DriverContract` shows what each driver does.
- SystemLives.EveryHelperFindsEvidence: counts evidence as lost for good once it was incomplete at any instant, even
  where a later save has published it again.
- SystemLives.EveryHelperTellsTheTruth: speaks of helpers one after the other, each with a client of its own.
- Validate.RevalidationIsIdentity: is stated for ranges that settle, because it is false for others
  (`NormalizeIsIdempotentIffSettles`).
- SessionLaws.FirstRollbackIsTimely: does not model how late a timer fires or how long a turn takes.
- Contexts, timeouts and timers: a cancellation or a timeout is one more way for a call to fail; time is a discrete
  clock that does not run backwards, and an armed lease fires at its deadline. Go's scheduling delays are not modelled.
- Concurrent helpers, locks, process launching, polkit: one helper at a time.
- Recovery.RecoveryFile.Load: does not model permissions and size checks beyond missing, undecodable and found.
- The list of controls restored by a recovery, and the texts of errors; of an error only what callers decide by is kept.
- Remaining values: reading a control for the report is one read, whether the operation or its driver does it.
- The session's payload decoding: a message arrives decoded, and an undecodable one is a broken input.
- SystemSafety.EveryRunIsSafe: does not take apart what follows a failed or abandoned request: forgetting it, ending
  the connection and closing the pipe are one step. So are the reader's evidence and hand-over; announcing an
  unsolicited message is a step of its own. A revert or a close may be requested whatever the client knows, so whether
  the decision was made at that moment or earlier does not matter.
- The desktop service's own fields; of it only the serialisation of requests is used.
- A reboot is taken to reset all temporary settings; an operation on one control to leave the others alone; the files
  of one control to be distinct.
- PowerLimitSpec.ShortHalfIsKept: takes a positive product of window and unit to be at least 2^-1074, as every
  positive double is; conversions of NaN and infinities to integers are those of amd64, and matter only for windows of
  zero and below.
- Probing: sysfs enumeration and parsing, CPU identification, capability revisions; discovery starts from the drivers'
  answers, operations from the discovered sources.
- The mailbox's busy bit, plane echo and two register accesses are one read that fails or tells the truth; the other
  plane is not modelled.
- SchedulerSpec.EveryRunIsRegular: does not wait for the rests after failures, which are only computed; so the spacing
  holds for any waking.
- Diagnostics, catalogues and the merging of discovery results in the scheduler.
- Message validation rules field by field: valid or not is part of the abstract coding. Directions likewise.
- The command line, configuration, persistence and all of the user interface.

# Deepwyrm kernel: a Dafny model

Deepwyrm is a capability kernel. This project models the parts of it that are bounded
concurrent state machines with move-only ownership, and its boot intake, and proves what
they guarantee over every input, every run and every interleaving.

- **Atomic wait** (`BlockedLedger`, `AtomicWaitIndex`, `AtomicWaitQueue`, `AtomicWaitTokens`,
  `AtomicWaitOperations`, `AtomicWaitMachine`, `AtomicWaitInvariant`, `AtomicWaitPreservation`,
  `AtomicWaitRuns`, `AtomicWaitFifo`, `AtomicWaitAsked`, `AtomicWaitWitness`, `AtomicWaitTable`).
  The slot index refines a FIFO queue per key; the wait transaction is run in place with all its
  roll-backs; and a machine with one step per lock region interleaves any number of waiters,
  wakers, dispatchers and rival winners. No wake is lost, waiters of a key are claimed in the
  order they registered, ownership is exact between calls, and every exit gives back what it took.
- **Interrupts** (`InterruptPlatform`, `InterruptSlots`, `InterruptState`, `InterruptAuthority`,
  `InterruptTransactions`, `InterruptMachine`, `InterruptInvariant`, `InterruptPreservation`,
  `InterruptRuns`, `InterruptProgress`, `InterruptRace`). Deliveries are conserved by a counter
  saturating at two, the typed table and the platform table agree in every run, retirement is
  exactly once under arbitrary deferral and concurrent retries, and no waiter misses a signal.
  Taken lock by lock, the agreement fails in exactly one family of interleavings, which is
  characterised both ways.
- **Boot grants and device resources** (`BootGrants`, `DeviceTable`, `DeviceResource`,
  `LeaseMachine`, `LeaseRuns`, `LeaseProgress`, `LeasePorts`). The lease protocol over all runs,
  and port isolation from table bytes to the accesses of live objects.
- **Boot intake** (`BootMemory`, `BootRecords`, `BootPaging`, `BootIntake`, `BootModules`,
  `BootWitness`, `ElfPlan`, `ElfImage`, with `Pages` and `LittleEndian`). The intake and the ELF64
  planner accept exactly what declarative predicates over the bytes describe; what acceptance
  implies for paging frames, module selection and the loaded image is proved from those
  predicates.
- **Liveness mirror** (`LivenessSeqlock`, `LivenessFormat`, `LivenessRuns`, `LivenessText`). The
  sequence lock, the byte-exact formatter with its exact line length, and the reading back of its
  text.

`dafny verify dfyconfig.toml` checks the whole project.

## How the model is built

- A lock-held region, or one atomic access, is one step. Memory is sequentially consistent.
- Objects whose methods update fields are classes proved against functions of their old state;
  the run machines use the same functions. Ghost fields `table` and `place` hold the abstract
  contents of a slot array.
- Where the code expects, unwraps or asserts, a method has a precondition or a machine step an
  assertion, and the run theorems show when it can fail.
- Words are unbounded numbers with the kernel's own overflow checks written out. Rounding to a
  power-of-two page with a mask is written as subtraction of the remainder.

## Findings

Where a property does not hold of the code as it is, the model keeps the code, a lemma gives
the input, and another says exactly when it holds.

- A deadline that fires after it was armed and before the word is read again makes the
  cleanup of a reread mismatch fail its expectation (`RudeTimeoutTrips`); nothing but a foreign
  winner can make one fail (`OnlyForeignWinnersTrip`), and polite rivals never do.
- A ledger reservation refused because its slot number exceeds 16 bits leaves its entry behind,
  and exactly then (`Reserve` of `BlockedOperationRegistry`, `BeginAtomicWait`). A ledger of 65537
  slots can do so (`StrandingLedger`), no smaller one (`NeverStrands`).
- A delivery that lands between the finish and the completion of an acknowledgement leaves a
  pending object over an armed source (`RaceWitness`, `AgreementAfterRace`).
- Generations in a binding are counted per slot, so a binding can recur if and only if there are
  at least two slots (`BindingRecurs`, `RecurrenceNeedsTwoSlots`), and a delivery for a released
  source is then accepted by a later one (`StaleDeliveryMatches`). One live record per source
  holds always.
- A validated handoff may place the bootstrap module at address zero, which selection then
  refuses (`ZeroStartHandoff`, `ZeroStartIsAcceptedThenRefused`); nothing but an unusable extent
  makes selection fail (`PrimordialModules`).
- The comment on the snapshot size calls every field fixed-width and allows 288 bytes for a
  line. A line that a reader returns can take 297 (`LongestLine`); it keeps to 288 if and only if
  its four counters have at most 51 digits plus what it saves elsewhere (`LineLength`). The whole
  snapshot still fits (`SnapshotFits`).
- The sequence of the liveness mirror can wrap during one read, and a reader then believes a
  record nobody published (`WrapIsBelieved`). Only a positive multiple of 2^64 stores during the
  read can do it (`ConsistentIsOnePublication`).
- The default `begin_retirement` only masks, so a delivery after it still reaches the object
  (`QuarantineWitness`), if and only if the typed Finalizing mark has not been set
  (`QuarantineAdmitsUntilMarked`).

## Model

| member | source | states |
|---|---|---|
| `BlockedLedger.BlockedOperationRegistry.Reserve` | kernel/src/task/blocked_operation.rs:100-138 | a duplicate thread is refused before a full table; success adds exactly one undecided wake key; a refusal changes nothing unless the first vacant slot number exceeds 16 bits, and exactly then the refused entry stays |
| `BlockedLedger.BlockedOperationRegistry.TryClaimWinner` | kernel/src/task/blocked_operation.rs:169-185 | the first claim wins and is recorded; a later claim is told so and changes nothing; an unknown key is stale |
| `BlockedLedger.BlockedOperationRegistry.WinnerOf` | kernel/src/task/blocked_operation.rs:187-198 | reports exactly the recorded winner, or that the key is stale |
| `BlockedLedger.BlockedOperationRegistry.CompleteWith` | kernel/src/task/blocked_operation.rs:453-478 | succeeds exactly when nobody else won, and then removes exactly that key; otherwise nothing changes |
| `BlockedLedger.InsertUpdates` | kernel/src/task/blocked_operation.rs:100-138 | filling a vacant ledger slot adds one undecided key to the winner map and loses none |
| `BlockedLedger.AdmitsMeans` | kernel/src/task/blocked_operation.rs:100-138 | a thread is admitted exactly when it is not in the ledger and a slot with a 16-bit number is empty and not used up |
| `BlockedLedger.StrandingLedger` | kernel/src/task/blocked_operation.rs:100-138 | such a ledger exists: 65537 slots, the first 65536 held by other threads, strands the next thread |
| `BlockedLedger.NeverStrands` | kernel/src/task/blocked_operation.rs:100-138 | and no smaller ledger strands anybody |
| `AtomicWaitIndex.FirstOpen` | kernel/src/atomic_wait.rs:162-170 | the lowest empty slot whose generation is not used up, or none exists |
| `AtomicWaitIndex.OldestBelow` | kernel/src/atomic_wait.rs:294-308 | the slot of least sequence among those on the key |
| `AtomicWaitTable.AtomicWaitRegistry.RegisterIfExpected` | kernel/src/atomic_wait.rs:150-198 | a changed word registers nothing; otherwise it succeeds exactly when a number is left and a slot with a 16-bit number is usable, and then adds one entry in the lowest such slot under its next generation and the next number |
| `AtomicWaitTable.AtomicWaitRegistry.CancelIfLive` | kernel/src/atomic_wait.rs:204-229 | true exactly for the live entry this token names, and only that entry goes; false exactly for one already gone; each error both ways |
| `AtomicWaitTable.AtomicWaitRegistry.OldestKeyedSlot` | kernel/src/atomic_wait.rs:294-308 | the scan finds the oldest entry of the key |
| `AtomicWaitTable.AtomicWaitRegistry.ClaimWake` | kernel/src/atomic_wait.rs:238-278 | the batch is the first `count` waiters of the key without a winner, or all of them for the wake-all count; exactly they get the winner; at most `count`, and never more than the capacity |
| `AtomicWaitQueue.QueueIsQueue` | kernel/src/atomic_wait.rs:238-308 | the slot array determines a per-key queue: exactly the live entries of the key, in registration order |
| `AtomicWaitQueue.QueueUnique` | kernel/src/atomic_wait.rs:238-308 | only one sequence is such a queue, so the refinement is well defined |
| `AtomicWaitQueue.RegisterEnqueues` | kernel/src/atomic_wait.rs:150-198 | registration appends at the tail of its own key and touches no other key |
| `AtomicWaitQueue.CancelDequeues` | kernel/src/atomic_wait.rs:204-229 | cancelling takes exactly one entry out of its queue, wherever it stands, and closes the gap |
| `AtomicWaitQueue.ClaimIsFifo` | kernel/src/atomic_wait.rs:238-278 | a claim hands out exactly the first `limit` entries without a winner, in order, drops a prefix of the queue, and discards only already-won entries ahead of its last claim |
| `AtomicWaitQueue.ClaimTakesFirst` | kernel/src/atomic_wait.rs:244-278 | what the count means: that many waiters without a winner, the longest waiting first, and everyone for the wake-all count |
| `AtomicWaitQueue.ClaimPopsQueue` | kernel/src/atomic_wait.rs:238-278 | popping slots by least sequence and popping the abstract queue are the same computation |
| `AtomicWaitQueue.ClaimKeepsOtherKeys` | kernel/src/atomic_wait.rs:238-278 | queues of other keys are untouched by a claim |
| `AtomicWaitQueue.ClaimNeverOverflows` | kernel/src/atomic_wait.rs:93-110 | the batch never exceeds the capacity even for a count above it |
| `AtomicWaitTokens.SlotReuseIsSafe` | kernel/src/atomic_wait.rs:162-229 | over any run of registrations, cancels and claims a token is answered `Ok(true)` at most once, exactly while its own entry is live, never with an error, and never removes a later occupant |
| `AtomicWaitTokens.CancelIsExact` | kernel/src/atomic_wait.rs:204-229 | a genuine token removes its own entry or nothing |
| `AtomicWaitRuns.RunInv` | kernel/src/atomic_wait.rs:601-910 | the ownership invariant holds in every state of every interleaving |
| `AtomicWaitPreservation.Preserved` | kernel/src/atomic_wait.rs:601-910 | every step of waiter, waker, dispatcher and rival keeps the invariant |
| `AtomicWaitRuns.OwnershipBetweenCalls` | kernel/src/atomic_wait.rs:204-495 | between calls each entry belongs to one operation with the same token and wake key, each operation has its entry or a winner, and each pin is in one operation or came back once |
| `AtomicWaitRuns.ExitLeavesNoTrace` | kernel/src/atomic_wait.rs:601-891 | a thread outside the wait code is in no authority, however it left and whatever others did meanwhile |
| `AtomicWaitRuns.SuspendedHoldsOneOfEach` | kernel/src/atomic_wait.rs:794-800 | a suspended thread has one operation, ledger key, registration and armed deadline, and no block reservation, all under one wake key |
| `AtomicWaitRuns.PinComesBackOnce` | kernel/src/atomic_wait.rs:601-891 | leaving hands back the very pin that came in, for the first and only time |
| `AtomicWaitRuns.OnlyForeignWinnersTrip` | kernel/src/atomic_wait.rs:601-891 | of all the expectations in the code only one about the winner can fail, and exactly when a foreign winner is recorded |
| `AtomicWaitRuns.PoliteRunsNeverTrip` | kernel/src/atomic_wait.rs:601-891 | when rivals claim only after registration, no expectation ever fails |
| `AtomicWaitRuns.RudeTimeoutTrips` | kernel/src/atomic_wait.rs:683-740 | a concrete run in which a deadline fires before the reread mismatch and the cleanup expectation fails |
| `AtomicWaitRuns.NoLostWake` | kernel/src/atomic_wait.rs:143-198 | after the word changed and a wake-all went through, whoever still sleeps on the old value has a winner and a wake on its way |
| `AtomicWaitRuns.NobodyOversleeps` | kernel/src/atomic_wait.rs:893-910 | once dispatched wakes have landed nobody is asleep on the old value |
| `AtomicWaitRuns.AtMostOneWake` | kernel/src/atomic_wait.rs:238-278 | over a whole run a block generation is in at most one batch, once |
| `AtomicWaitRuns.WakeAllReaches` | kernel/src/atomic_wait.rs:238-278 | a registered waiter without a winner is in the batch of any wake-all on its key |
| `AtomicWaitFifo.WakesAreDistinct` | kernel/src/atomic_wait.rs:150-198 | in every state that keeps the invariant, hence in every reachable one, live entries have distinct sequence numbers and distinct wake keys, which is what the FIFO lemmas ask of the slots |
| `AtomicWaitFifo.BatchIsFirst` | kernel/src/atomic_wait.rs:244-278 | in every reachable state a wake of `count` hands out exactly the first `count` undecided waiters of its key, or all of them |
| `AtomicWaitFifo.KeepsNumber` | kernel/src/atomic_wait.rs:150-198 | over a whole run an entry keeps the number of its one registration, and later registrations get higher ones |
| `AtomicWaitFifo.FirstRegisteredFirstClaimed` | kernel/src/atomic_wait.rs:143-308 | over a whole run, if a wake takes a waiter while one that registered earlier on the same key still waits, it took the earlier one too, and before it |
| `AtomicWaitAsked.SuspendedAsAsked` | kernel/src/atomic_wait.rs:601-800 | over every interleaving a suspended thread waits on the word, value and pin of its begin, has a deadline exactly if its arming was finite, and while undecided is in the index under that word |
| `AtomicWaitWitness.WakeAllDecides` | kernel/src/atomic_wait.rs:238-278 | whoever was registered when a wake-all went through is decided in every later state of the run, even if the word is set back, and while it still sleeps its wake is on its way |
| `AtomicWaitWitness.SleeperIsWoken` | kernel/src/atomic_wait.rs:601-910 | a run that meets what the theorem on lost wakes assumes: asleep, the word changed, a wake-all, a winner, and the delivered wake ends the sleep |
| `AtomicWaitInvariant.PublicationNeverFails` | kernel/src/atomic_wait.rs:436-456 | whenever the ledger admitted a thread its operation can be published, so that roll-back is dead code |
| `AtomicWaitOperations.AtomicWaitOperationRegistry.Publish` | kernel/src/atomic_wait.rs:436-456 | one operation per thread; the duplicate is reported before the full table |
| `AtomicWaitOperations.AtomicWaitOperationRegistry.TakeWake` | kernel/src/atomic_wait.rs:458-470 | takes out exactly the operation with that wake key, or says it is stale |
| `AtomicWaitOperations.AtomicWaitOperationRegistry.TakeThread` | kernel/src/atomic_wait.rs:472-477 | takes out exactly the operation of that thread |
| `AtomicWaitOperations.CancelUndoes` | kernel/src/atomic_wait.rs:204-229 | cancelling a fresh registration restores every entry of the index, also after a wake already took it |
| `AtomicWaitOperations.BeginAtomicWait` | kernel/src/atomic_wait.rs:601-827 | in place over all authorities: Suspended leaves exactly one of each under one wake key, the entry on the requested word, the ledger entry for the requesting process, a deadline exactly if a finite one was asked for; every other exit returns the pin and restores everything, except that reaching a ledger that strands the thread leaves that one undecided key; when it suspends, is ready, times out or mismatches is stated both ways; all operations stay sound and a new one is sound |
| `AtomicWaitOperations.FinishAtomicWait` | kernel/src/atomic_wait.rs:829-862 | returns the pin and the recorded winner and gives up exactly what that operation held, its own index entry included if still live and never a later one; the others stay sound |
| `AtomicWaitOperations.FinishTerminal` | kernel/src/atomic_wait.rs:864-891 | returns the pin and the winner: the recorded one, or Terminal if the wait was undecided; gives up exactly what the operation held and keeps the others sound |
| `AtomicWaitOperations.BeginKeepsSound` | kernel/src/atomic_wait.rs:601-827 | however a begin ends, every suspended operation still owns its ledger entry and can withdraw its registration |
| `AtomicWaitOperations.FinishKeepsSound` | kernel/src/atomic_wait.rs:829-891 | so it does when another operation is finished |
| `AtomicWaitOperations.FinishUndoesBegin` | kernel/src/atomic_wait.rs:601-862 | begin, a winner and finish restore what was there before, whether or not the wake already took the entry |
| `InterruptPlatform.InterruptPlatformModel.ReserveSource` | kernel/src/device/interrupt.rs:257-295 | reserved lines, bound sources and a full table are refused in that order; success binds the source in the first open slot under its next generation, and with one slot no binding recurs |
| `InterruptPlatform.InterruptPlatformModel.CancelSource` | kernel/src/device/interrupt.rs:297-311 | only an exact reservation is released; anything else changes nothing |
| `InterruptPlatform.InterruptPlatformModel.PrepareSourceDelivery` | kernel/src/device/interrupt.rs:228-241 | an exact committed source is masked; a reserved or stale one is refused |
| `InterruptPlatform.InterruptPlatformModel.CommitSource` | kernel/src/device/interrupt.rs:313-320 | an exact reservation becomes armed, nothing else moves |
| `InterruptPlatform.InterruptPlatformModel.MaskSource` | kernel/src/device/interrupt.rs:322-333 | an exact committed source becomes masked |
| `InterruptPlatform.InterruptPlatformModel.Acknowledge` | kernel/src/device/interrupt.rs:335-345 | accepts exactly the masked exact bindings |
| `InterruptPlatform.InterruptPlatformModel.CompleteAcknowledgement` | kernel/src/device/interrupt.rs:347-355 | rearms the source unless a delivery raced |
| `InterruptPlatform.InterruptPlatformModel.ReleaseSource` | kernel/src/device/interrupt.rs:357-367 | an exact masked source is unbound |
| `InterruptSlots.BindingRecurs` | kernel/src/device/interrupt.rs:257-311 | for every capacity of at least two, a run of reserve and cancel over the slot array in which two reserves succeed with the same binding |
| `InterruptSlots.StaleDeliveryMatches` | kernel/src/device/interrupt.rs:228-367 | for every capacity of at least two, a run through commit, mask and release after which a delivery for the released binding is accepted by a later one |
| `InterruptSlots.OneSlotNeverRecurs` | kernel/src/device/interrupt.rs:257-311 | with at most one slot no run of any operations issues a binding twice |
| `InterruptSlots.RecurrenceNeedsTwoSlots` | kernel/src/device/interrupt.rs:257-311 | a binding can recur if and only if there are at least two slots |
| `InterruptState.RunStaysLive` | kernel/src/device/interrupt.rs:650-713 | a rearm acknowledgement is in flight exactly while the state is AckPrepared, so its finish never finds that state lost |
| `InterruptState.DeliveryFactsConserved` | kernel/src/device/interrupt.rs:614-724 | over every interleaving a live Interrupt is a counter saturating at two, signaled exactly while positive |
| `InterruptState.AnswersFollowTheTally` | kernel/src/device/interrupt.rs:614-713 | over every interleaving an acknowledgement is accepted exactly while a delivery is unacknowledged and none is under way, at once exactly if there are two; each delivery is first, coalesced or racing by the same count |
| `InterruptState.EarlierAckNeverClears` | kernel/src/device/interrupt.rs:614-724 | a delivery stays signaled until an acknowledgement prepared after it |
| `InterruptState.NoMissedSignal` | kernel/src/device/interrupt.rs:889-947 | a registered waiter of a signaled object is in a batch, or a batch is still due |
| `InterruptState.RacingWaiterIsServed` | kernel/src/device/interrupt.rs:614-648 | a waiter that comes in before the wakes of a delivery are collected, early or late, and does not cancel, is told Ready at once or is registered then and in that very batch; it is told Ready exactly while a delivery is unacknowledged |
| `InterruptState.QuiescentMeansServed` | kernel/src/device/interrupt.rs:889-947 | once all batches are collected an unserved waiter waits on an armed object with no delivery left |
| `InterruptAuthority.InterruptRecords.Bind` | kernel/src/device/interrupt.rs:561-595 | wrong types, then a clash of object or source, then a full table are refused; success adds one Creating record |
| `InterruptAuthority.InterruptRecords.DeliverClassified` | kernel/src/device/interrupt.rs:614-648 | reaches the one live record of the binding and makes it pending, coalesced or raced by its old state, or rejects and changes nothing |
| `InterruptAuthority.InterruptRecords.PrepareAcknowledgement` | kernel/src/device/interrupt.rs:650-694 | succeeds exactly on a pending object: consumes a coalesced fact or prepares a rearm; refuses every other state of a known object as wrong |
| `InterruptAuthority.InterruptRecords.FinishAcknowledgement` | kernel/src/device/interrupt.rs:696-713 | leaves Armed, or Pending when a delivery raced, and says which |
| `InterruptAuthority.InterruptRecords.RestorePendingAfterFailure` | kernel/src/device/interrupt.rs:715-724 | a failed acknowledgement loses no delivery |
| `InterruptAuthority.InterruptRecords.LookUpFinal` | kernel/src/device/interrupt.rs:956-975 | finds the binding to retire exactly for a live object of the right type |
| `InterruptAuthority.InterruptRecords.MarkFinalizing` | kernel/src/device/interrupt.rs:979-988 | the exact live record becomes Finalizing, nothing else moves |
| `InterruptAuthority.InterruptRecords.StageRelease` | kernel/src/device/interrupt.rs:990-1003 | parks the release in a record that had none |
| `InterruptAuthority.InterruptRecords.EndRetry` | kernel/src/device/interrupt.rs:1045-1054 | lets go of the record this retry had claimed |
| `InterruptAuthority.InterruptRecords.BeginRetry` | kernel/src/device/interrupt.rs:1031-1091 | claims one retryable record for this caller, or none is retryable |
| `InterruptAuthority.InterruptRecords.TakeFinalized` | kernel/src/device/interrupt.rs:1120-1138 | moves the record out with everything it owns |
| `InterruptAuthority.InterruptRecords.CurrentSignals` | kernel/src/device/interrupt.rs:866-887 | signaled exactly when unacknowledged deliveries remain |
| `InterruptTransactions.Create` | kernel/src/device/interrupt.rs:1222-1349 | a failure leaves both tables exactly as they were; success adds one agreeing armed pair and nothing else; when it succeeds and which error each refusal gives are stated both ways |
| `InterruptTransactions.CompleteTransaction` | kernel/src/device/interrupt.rs:1172-1211 | success consumes exactly one delivery and leaves the tables agreeing; a refusal consumes none |
| `InterruptTransactions.Finalize` | kernel/src/device/interrupt.rs:951-1029 | record and source go together, the release comes back with the parent pin; a mismatched release changes nothing |
| `InterruptPreservation.Preserved` | kernel/src/device/interrupt.rs:228-368 | in every reachable state each step meets the kernel's own assertions and keeps the two-table invariant |
| `InterruptRuns.NoAssertionFires` | kernel/src/device/interrupt.rs:950-1211 | no commit, mask, finish, release or take assertion can fire in any run |
| `InterruptRuns.TablesAgree` | kernel/src/device/interrupt.rs:597-724 | a published Interrupt is Armed exactly when its exact source is armed, and Pending or AckPrepared exactly when it is masked |
| `InterruptRuns.PlatformAcksNeverFail` | kernel/src/device/interrupt.rs:1171-1211 | the platform accepts every prepared acknowledgement |
| `InterruptRuns.OneLiveRecordPerSource` | kernel/src/device/interrupt.rs:561-595 | two records never share a source |
| `InterruptRuns.SourceStaysBound` | kernel/src/device/interrupt.rs:257-295 | until its retirement completes a source cannot be reserved again |
| `InterruptRuns.ReleaseInOnePlace` | kernel/src/device/interrupt.rs:950-1138 | a final release is with its finalizer, in its record, or in a Ready result, and never in two of them |
| `InterruptRuns.ReadyExactlyOnce` | kernel/src/device/interrupt.rs:1396-1422 | no object is handed out twice, and each result carries its own parent pin |
| `InterruptRuns.ParentPinInOnePlace` | kernel/src/device/interrupt.rs:950-1138 | every parent pin is in its creation, its record, one refusal or one Ready result |
| `InterruptRuns.OneRetryPerRecord` | kernel/src/device/interrupt.rs:1031-1138 | two retries never work on the same record |
| `InterruptRuns.DeferredIsRetryable` | kernel/src/device/interrupt.rs:1031-1138 | a deferred record can be picked up, or exactly one retry already has it |
| `InterruptRuns.FinalizingIsForever` | kernel/src/device/interrupt.rs:951-1029 | a Finalizing object stays so until taken out and no delivery reaches it |
| `InterruptRuns.QuarantineAdmitsUntilMarked` | kernel/src/device/interrupt.rs:162-167 | after the default `begin_retirement` a delivery of the binding still reaches the object if and only if the Finalizing mark has not been set |
| `InterruptRuns.QuarantineWitness` | kernel/src/device/interrupt.rs:977-988 | from any initial state, a run in which a delivery between quarantine and mark changes the record |
| `InterruptProgress.LiveCanRetire` | kernel/src/device/interrupt.rs:950-1029 | from every reachable state a published object with no acknowledgement under way can be retired in five steps, and is handed out with its pin while nothing else changes |
| `InterruptProgress.DeferredCanFinish` | kernel/src/device/interrupt.rs:1031-1138 | and a deferred one by any free worker in three |
| `InterruptProgress.AcknowledgeUndoesDelivery` | kernel/src/device/interrupt.rs:614-713 | on a published armed object a delivery, its preparation and its completion lead back to exactly the same state |
| `InterruptRace.AgreementAfterRace` | kernel/src/device/interrupt.rs:1171-1211 | taken lock by lock, the tables agree after the race unless the source was rearmed, a delivery landed after the finish, and no later delivery masked it: both directions |
| `InterruptRace.RaceNeverPanics` | kernel/src/device/interrupt.rs:1171-1211 | the steps of the acknowledgement are never refused whatever races with them |
| `InterruptRace.RaceWitness` | kernel/src/device/interrupt.rs:335-355 | the disagreement is reachable, and the next acknowledgement is then refused |
| `BootGrants.GrantMint.Materialize` | kernel/src/boot/boot_grant.rs:94-132 | one Available grant per descriptor, in order, under exactly the next numbers, which were never issued before and are now; a refusal advances nothing |
| `BootGrants.BootResourceGrantAuthority.BindResourceOwner` | kernel/src/boot/boot_grant.rs:249-265 | binds exactly when the pin names a task group under that key and no owner is bound, and then changes only the owner; a refusal changes nothing |
| `BootGrants.BootResourceGrantAuthority.TakeOwnerIfAllAvailable` | kernel/src/boot/boot_grant.rs:282-298 | gives the bound pin out exactly when every grant is Available and an owner is bound; each refusal both ways |
| `BootGrants.BootResourceGrantAuthority.ReserveLease` | kernel/src/boot/boot_grant.rs:300-343 | succeeds exactly when an owner is bound, the first grant of the resource is Available and a number is left, and reserves that grant under the next number; each refusal both ways |
| `BootGrants.BootResourceGrantAuthority.CancelReservation` | kernel/src/boot/boot_grant.rs:345-361 | succeeds exactly when the first grant of this name is reserved under this number, and frees it; otherwise nothing moves |
| `BootGrants.BootResourceGrantAuthority.CommitReservation` | kernel/src/boot/boot_grant.rs:364-379 | the grant this reservation holds becomes leased to the object under the same number |
| `BootGrants.BootResourceGrantAuthority.Release` | kernel/src/boot/boot_grant.rs:381-408 | succeeds exactly when the first grant of this name is leased to this object under this number, and frees it; otherwise nothing moves |
| `LeaseMachine.Preserved` | kernel/src/boot/boot_grant.rs:249-437 | every step of the lease protocol meets its assertions and keeps the invariant |
| `LeaseRuns.GenuineTokensNeverFail` | kernel/src/boot/boot_grant.rs:345-408 | in every run the reservation of a claim in flight can be cancelled or committed, a bound claim has its record, and the lease of a finalized object can be given back |
| `LeaseRuns.OneHolderPerGrant` | kernel/src/boot/boot_grant.rs:300-408 | each grant is Available with no holder, Reserved by exactly one reservation, or Leased to exactly one object |
| `LeaseRuns.LeaseNumbersNeverRepeat` | kernel/src/boot/boot_grant.rs:300-343 | two reservations of one run never carry the same lease number |
| `LeaseRuns.OwnerLeavesLast` | kernel/src/boot/boot_grant.rs:282-298 | when the owner leaves no reservation is outstanding and no object holds a lease |
| `LeaseRuns.OwnerIsNeverReplaced` | kernel/src/boot/boot_grant.rs:249-298 | over every run a bound owner stays the same until it is taken out, and every other bind is refused |
| `LeaseRuns.PinComesBack` | kernel/src/boot/boot_grant.rs:249-298 | the pin that is taken out is the pin of the last successful bind |
| `LeaseRuns.ReleaseIsExact` | kernel/src/boot/boot_grant.rs:381-408 | a release succeeds exactly when all four fields are a committed object's lease; any other changes nothing |
| `LeaseProgress.LeaseRoundTrip` | kernel/src/boot/boot_grant.rs:300-408 | from every reachable state a claim of an available grant can be reserved, bound, leased, finalized and given back, and then everything is as before except one lease number and one object name |
| `DeviceTable.ParseResource` | kernel/src/boot/device_table.rs:153-196 | accepts exactly the records whose bytes say a well-formed descriptor, field by field, and returns it; each refusal names the first failing check, both directions |
| `DeviceTable.ParseEncode` | kernel/src/boot/device_table.rs:153-196 | every well-formed descriptor has a record that parses back to it |
| `DeviceTable.EncodeParse` | kernel/src/boot/device_table.rs:153-196 | and that record is the only one: whatever parses to a descriptor is its encoding, byte for byte |
| `DeviceTable.CheckPairs` | kernel/src/boot/device_table.rs:117-131 | accepts exactly the pairwise compatible lists; the error is the first check the first bad pair fails |
| `DeviceTable.CheckReserved` | kernel/src/boot/device_table.rs:112-116 | accepts exactly the lists that stay off the kernel's own port and line |
| `DeviceTable.PortTestsMean` | kernel/src/boot/device_table.rs:112-131 | the end-point tests decide, port by port, whether a descriptor has a port of the kernel or one in common with another |
| `DeviceTable.ParseBootResourceGrants` | kernel/src/boot/device_table.rs:31-151 | accepts exactly the acceptable tables whose grants can be named; success advances the mint by exactly those grants under fresh generations; any refusal mints nothing |
| `DeviceResource.AcceptedIsValid` | kernel/src/device/resource.rs:534-549 | every descriptor the table parser accepts passes the resource validator under any nonzero lease |
| `DeviceResource.ValidDescriptorMeans` | kernel/src/device/resource.rs:534-549 | the validator accepts exactly descriptors whose every port is below the limit and not the kernel's, with the other fields legal |
| `DeviceResource.ValidAccess` | kernel/src/device/resource.rs:500-532 | an access through any valid descriptor is allowed exactly when its width is legal and it ends inside |
| `DeviceResource.AccessStaysInside` | kernel/src/device/resource.rs:500-532 | an access is allowed exactly when its width is legal and it ends inside the resource, and then stays in range and off the kernel's port |
| `DeviceResource.PortsIsolated` | kernel/src/device/resource.rs:500-549 | accesses through different resources never touch the same port |
| `LeasePorts.LivePortsIsolated` | kernel/src/device/resource.rs:235-287 | in every state of every run over the grants of an accepted table, accesses through two live boot-backed objects never touch the same port or the kernel's own, and their interrupt sources differ |
| `LeasePorts.SourcesCanBeReserved` | kernel/src/device/interrupt.rs:257-270 | the platform reserves line zero and the kernel's serial line, and no accepted descriptor names either |
| `DeviceResource.DeviceResourceAuthority.BindClaim` | kernel/src/device/resource.rs:235-287 | zero generation, type, descriptor, identity and room are checked in that order; success adds one record with its exact lease |
| `DeviceResource.DeviceResourceAuthority.TakeFinalization` | kernel/src/device/resource.rs:383-411 | moves the record out with the lease it must give back |
| `ElfPlan.ParseLoadSegment` | kernel/src/boot/primordial.rs:437-491 | accepts exactly the acceptable load headers and computes their page range |
| `ElfPlan.LoadFaultNamed` | kernel/src/boot/primordial.rs:437-491 | a refused load header is refused for its first fault, each fault stated on the bytes |
| `ElfPlan.PowerOfTwoMeans` | kernel/src/boot/primordial.rs:463-470 | the alignment test accepts exactly the powers of two |
| `ElfPlan.AddLoad` | kernel/src/boot/primordial.rs:377-395 | takes a load header exactly when it parses, overlaps no earlier segment and stays within count and size limits |
| `ElfPlan.HeaderChecked` | kernel/src/boot/primordial.rs:314-361 | the ordered header checks find no fault exactly when the header bytes, fields and table range are acceptable |
| `ElfPlan.ParsePrimordialElf` | kernel/src/boot/primordial.rs:314-435 | accepts exactly the valid images, plans exactly their load segments, and reports the first failing check of the first bad header |
| `ElfImage.NoWritableExecutablePage` | kernel/src/boot/primordial.rs:314-491 | no page of a valid image is both writable and executable |
| `ElfImage.OneSupplier` | kernel/src/boot/primordial.rs:314-491 | every address is supplied by at most one segment |
| `ElfImage.OverlapMeansSharedPage` | kernel/src/boot/primordial.rs:505-507 | the overlap test decides whether two segments share a page |
| `ElfImage.SegmentsInBounds` | kernel/src/boot/primordial.rs:437-491 | file ranges stay in the module and segments in user space |
| `ElfImage.EntryIsExecutable` | kernel/src/boot/primordial.rs:419-428 | the entry lies in exactly one segment, executable and not writable |
| `ElfImage.PageHoldsByte` | kernel/src/boot/primordial.rs:505-517 | a page is mapped exactly when it holds a byte of the segment |
| `ElfImage.MappedLengthCountsPages` | kernel/src/boot/primordial.rs:377-395 | the planned length is the page size times the number of distinct pages holding a segment byte |
| `BootRecords.ClearIsDisjoint` | kernel/src/boot/validation.rs:612-625 | the end-point test decides byte disjointness |
| `BootRecords.CheckedRange` | kernel/src/boot/validation.rs:592-610 | accepts exactly nonempty, aligned, addressable ranges |
| `BootRecords.ValidateTable` | kernel/src/boot/validation.rs:13-35 | accepts exactly the tables within count, stride, alignment and address limits |
| `BootRecords.ParseMemoryRange` | kernel/src/boot/validation.rs:81-131 | accepts exactly the records whose bytes say an acceptable range under the stride, and returns those fields |
| `BootRecords.ParseModule` | kernel/src/boot/validation.rs:133-163 | accepts exactly the records whose bytes say an acceptable module under the stride, and returns those fields |
| `BootRecords.MemoryFaultNamed` | kernel/src/boot/validation.rs:81-131 | a refused memory record is refused for its first fault, each fault stated on the bytes |
| `BootRecords.ModuleFaultNamed` | kernel/src/boot/validation.rs:133-163 | so is a refused module record |
| `BootRecords.FramebufferFaults` | kernel/src/boot/validation.rs:446-507 | which error a refused framebuffer gives |
| `BootRecords.EntropyFaults` | kernel/src/boot/validation.rs:524-557 | which error a refused entropy record gives |
| `BootRecords.ModuleRoundTrip` | kernel/src/boot/validation.rs:133-163 | every acceptable module has a record that parses back to it |
| `BootRecords.MemoryRoundTrip` | kernel/src/boot/validation.rs:81-131 | every acceptable memory record parses back to itself |
| `BootRecords.ValidateFramebuffer` | kernel/src/boot/validation.rs:446-507 | accepts exactly an absent all-zero framebuffer or a well-formed one whose memory holds every scan line |
| `BootRecords.ValidateEntropy` | kernel/src/boot/validation.rs:524-557 | accepts exactly an all-zero record or one of a known source with an addressable range or none |
| `BootPaging.CheckFrames` | kernel/src/boot/validation.rs:256-268 | the neighbour test decides global strict ascent, and with the per-frame tests the whole list |
| `BootPaging.CheckHeader` | kernel/src/boot/validation.rs:204-243 | the ordered header checks accept exactly the carriers whose fixed fields, width, counts and lengths are right |
| `BootPaging.CheckRequired` | kernel/src/boot/validation.rs:269-285 | the four required frames are distinct, well formed and in the list, or it refuses |
| `BootPaging.ParsePagingHandoff` | kernel/src/boot/validation.rs:165-291 | accepts exactly the well-formed carriers and reports their frames |
| `BootPaging.CheckCoverage` | kernel/src/boot/validation.rs:361-402 | passes exactly when one record meets the frame and that record is RESERVED and holds it |
| `BootPaging.CheckRoles` | kernel/src/boot/validation.rs:297-359 | passes exactly when every frame is clear of every role and module and has its one owner |
| `BootPaging.RolesClearMeans` | kernel/src/boot/validation.rs:297-359 | the end-point tests decide byte disjointness from every role |
| `BootIntake.Classify` | kernel/src/boot/mod.rs:446-503 | accepts exactly lists with the right kinds and flags, one of each required kind and at most one device table; names the first fault of the others |
| `BootIntake.ClassifiedMeans` | kernel/src/boot/mod.rs:446-503 | the accepted lists in numbers: kinds, flags and how many of each |
| `BootIntake.CheckModulePairs` | kernel/src/boot/mod.rs:504-512 | passes exactly when all modules are pairwise clear |
| `BootIntake.ParseHeader` | kernel/src/boot/mod.rs:374-445 | accepts exactly the headers whose words say acceptable tables and payloads, and returns exactly those roles |
| `BootIntake.OneSaying` | kernel/src/boot/mod.rs:374-445 | header bytes say at most one set of roles |
| `BootIntake.CheckContents` | kernel/src/boot/mod.rs:446-526 | accepts exactly classified, pairwise clear modules with a well-formed carrier whose frames are all placed |
| `BootIntake.ValidateBootInfo` | kernel/src/boot/mod.rs:374-548 | accepts exactly the handoffs whose bytes in memory say a passing header, tables, contents and device table; what it accepts is validated and advances the mint by exactly its grants under fresh generations; a refusal mints nothing |
| `BootModules.RoundingStaysApart` | kernel/src/boot/primordial.rs:155-170 | byte-disjoint ranges with page-aligned starts stay disjoint after page rounding |
| `BootModules.Select` | kernel/src/boot/primordial.rs:94-132 | on a validated list it succeeds exactly when both extents are usable and fails only for the extent |
| `BootModules.PrimordialModules` | kernel/src/boot/mod.rs:299-308 | from any validated handoff selection can fail only with an invalid extent, and exactly then; otherwise the first result is the bootstrap module and the second the bootfs, rounded up to whole pages |
| `BootWitness.ZeroStartHandoff` | kernel/src/boot/mod.rs:374-548 | memory bytes that are an acceptable handoff, with no device table, whose bootstrap module starts at address zero |
| `BootWitness.ZeroStartIsAcceptedThenRefused` | kernel/src/boot/primordial.rs:134-153 | on those bytes validation succeeds under any mint and the selection that follows fails with an invalid extent |
| `BootModules.FramesListed` | kernel/src/boot/validation.rs:256-285 | frames ascend globally, hold the four distinct required frames, and lie whole under the physical limit |
| `BootModules.FrameHasOneOwner` | kernel/src/boot/validation.rs:361-402 | exactly one memory record shares a byte with the frame, it is RESERVED and holds all of it |
| `BootModules.FrameAvoidsRoles` | kernel/src/boot/validation.rs:297-359 | the frame shares no byte with BootInfo, tables, modules, command line, entropy, framebuffer or the largest RSDP |
| `LivenessSeqlock.RunInv` | kernel/src/debug/liveness.rs:285-452 | the mirror invariant holds in every interleaving of publisher, scheduler stores and reader |
| `LivenessSeqlock.ConsistentIsOnePublication` | kernel/src/debug/liveness.rs:406-452 | a record marked consistent has identity and count of one single publication, or the initial ones, unless a positive multiple of 2^64 sequence stores lies between its two sequence loads |
| `LivenessRuns.WrapIsBelieved` | kernel/src/debug/liveness.rs:406-452 | such a run exists: after 2^64 stores a record nobody published is marked consistent |
| `LivenessSeqlock.EveryRecordFits` | kernel/src/debug/liveness.rs:406-452 | every field the reader can return is in the range its stores allow |
| `LivenessSeqlock.UndisturbedAttemptSucceeds` | kernel/src/debug/liveness.rs:406-434 | from an idle publisher, with no publication begun before it ends, an attempt returns after exactly fifteen loads, and its record is consistent and is the last completed publication |
| `LivenessSeqlock.TornAfterEight` | kernel/src/debug/liveness.rs:406-452 | a returned record is marked consistent if and only if fewer than eight attempts were disturbed before |
| `LivenessFormat.HexWordRoundTrip` | kernel/src/debug/liveness.rs:475-486 | sixteen digits decode back to the value |
| `LivenessFormat.DecRoundTrip` | kernel/src/debug/liveness.rs:488-510 | decimal digits decode back to the value |
| `LivenessFormat.Cursor.Literal` | kernel/src/debug/liveness.rs:465-473 | appends all of the text or marks the overflow and writes nothing |
| `LivenessFormat.Cursor.Hex64` | kernel/src/debug/liveness.rs:475-486 | appends the sixteen digits of the value |
| `LivenessFormat.Cursor.Decimal` | kernel/src/debug/liveness.rs:488-510 | appends the decimal text of the value |
| `LivenessFormat.LineLength` | kernel/src/debug/liveness.rs:537-586 | the exact length of a CPU line in the digits of its four counters, the condition under which it keeps to 288 bytes, both directions, and the bound of 297 |
| `LivenessFormat.DigitCount` | kernel/src/debug/liveness.rs:488-510 | how many digits a number takes, both directions |
| `LivenessRuns.ReadsBack` | kernel/src/debug/liveness.rs:285-452 | for any number of publications and any placement, a run whose reader returns exactly that cell as consistent |
| `LivenessRuns.LongestLine` | kernel/src/debug/liveness.rs:537-586 | a record that a reader of some run returns has a line of 297 bytes |
| `LivenessText.SnapshotReads` | kernel/src/debug/liveness.rs:523-590 | equal snapshot texts come from equal authorities and equal records, field by field |
| `LivenessFormat.SnapshotFits` | kernel/src/debug/liveness.rs:454-456 | the whole snapshot takes at most 1231 of the 1248 bytes |
| `LivenessFormat.FormatSnapshot` | kernel/src/debug/liveness.rs:523-590 | refuses short buffers; otherwise succeeds exactly when the text fits and then writes exactly the text |
| `LivenessFormat.MirrorAlwaysFormats` | kernel/src/debug/liveness.rs:523-590 | whatever the publishers did, the records a snapshot reads always fit |

## Left out

- Scheduler, deadline service, task authority, handle tables and object registry: reduced to the answers the modelled code acts on (may block, armed, expired, refused, room, no room) and to tokens that are given and returned.
- `wake_atomic_waiters` returning early on a scheduler error other than a stale token: the model's dispatcher answers Ok or stale only, so a partly delivered batch does not occur.
- The ledger claim inside `claim_wake` returning an error other than a stale reservation, which abandons the batch built so far.
- Process leases, execution generations and CPU numbers inside a wake key: a wake key is its block token and thread.
- AtomicWaitOperations.FinishAtomicWait: requires that a winner is recorded for the wake, because the code takes the operation out before it looks the winner up, and an undecided blocked operation asserts when it is dropped.
- AtomicWaitOperations.BeginAtomicWait: other parties act at one point, after publication; the full interleaving is the subject of the machine in `AtomicWaitMachine`.
- InterruptRuns.TablesAgree: takes one delivery and one acknowledgement completion as single steps; `InterruptRace` says exactly what happens when they are not.
- InterruptRace.RaceNeverPanics: races deliveries with one acknowledgement; a second completion at the same time is excluded by the exclusive borrow of the object registry that `complete` takes (kernel/src/device/interrupt.rs:1172-1177).
- InterruptState.NoMissedSignal: a wait registry that refuses a registration for lack of room is not modelled.
- The q35 interrupt platform: only its contract (it may defer retirement) is modelled.
- Rights checks, status-code mapping, `info` records and evidence or test hooks: single-branch facts.
- BootIntake.ValidateBootInfo: states when a handoff is refused, not which check is named first; refusals of the device table are reported under one name instead of the table parser's own error.
- BootIntake.ParseHeader: states which headers are accepted and what they say, not which error a refused one gives; the record checks it calls name theirs.
- BootPaging.CheckRoles: states which frames are accepted, not which of its errors a refusal gives.
- Copying, mapping and zeroing of segments after planning, and the rest of primordial construction.
- Weak memory ordering, spin-lock implementation, inline assembly and hardware bring-up.
- LivenessSeqlock.ConsistentIsOnePublication: says nothing about the event and the scheduler's fields, which are stored outside the sequence lock.
- Serial output of the snapshot and the debugger's view of the runtime authority.

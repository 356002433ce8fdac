# pathlockd: a verified model of one lock group

pathlockd is a hierarchical lock daemon. A group is a replicated state machine:
a log of commands is applied, in order, to the lock tables, the wait queue, the
namespace policies, the dedupe records and the expiry index of the group. This
project models that machine in Dafny and proves what it guarantees over every
log of commands.

## Layers

| files | what they hold |
|---|---|
| `Ordering`, `Bytes`, `Keys`, `Paths`, `Expiry`, `Roots` | key and path strings, byte keys, big-endian encodings, expiry times, explicit namespace roots |
| `LockSpec`, `LockInvariant` | the lock tables as values, what each engine primitive does to them, and the invariant `Good` |
| `AcquireProof`, `ValidateProof`, `ApplyProof`, `EngineProof` | every primitive keeps `Good`; fences only rise; capacities never change (`Onward`) |
| `Decision`, `AllOrNothing`, `AcquireDecision`, `AcquireFrame`, `Outcomes`, `Blame` | when an acquire is granted, that it is all or nothing, exactly which holds, fences, capacities and leases it moves, and what it answers: the token, the reason and the owner to blame |
| `EngineRefine`, `Engine` | the engine as it is written: a transaction whose methods loop over and update the tables, proved equal to `LockSpec` |
| `QueueSpec`, `QueueProof`, `EnqueueProof`, `SweepProof`, `Reserved`, `WaitQueue`, `Fairness`, `Delivery`, `Progress`, `Leftover`, `Turns`, `Barging`, `Stalled` | the FIFO wait queue: accounting, admission, grant sweeps turn by turn, no barging, what a grant delivers, why a sweep leaves a waiter, and where sweeps overtake or stall |
| `MachineSpec`, `MachineProof`, `PolicyProof`, `ClearProof`, `GcProof`, `GcProgress`, `Runs`, `Theorems`, `Replay`, `Routes`, `Leases`, `Machine` | the apply layer: clock clamp, dedupe, discard, policies, garbage collection; the run invariant and the theorems over every run: safety, replay, routes, leases |
| `Commands`, `Collect`, `Epochs`, `Admission`, `Granting`, `Stamps` | one law per operation: what an applied command does to holds, leases, waiters and policies and what it answers; epochs, stamps and tokens over whole runs |
| `Store`, `Txn`, `Snapshot` | the overlay transaction, the merged scan, the atomic commit, group snapshot images |
| `Deadlock`, `Routing` | the deadlock walk and namespace resolution |

Values and loops go together: a file ending in `Spec` gives an operation as a
function, and the class of the layer (`LockTxn`, `QueueTxn`, `GroupTxn`,
`GroupMachine`, `WriteTxn`, `ReservedPaths`, `NamespaceCache`) performs it step by
step with the source's loops and is proved to compute that function. The theorems
are then about the functions.

## Reading the results

- A **run** is `Run(cfg, EMPTY_GROUP, log)` for any `log` whose acquires are
  `Stamped`: they carry a request id and a namespace without the separator
  character, which the service refuses (src/service.rs:226-236). The router stamps every acquire (src/cluster/router.rs:608-613,
  src/cluster/router.rs:1156-1165), and the id is what makes the apply layer
  compare the stamped policy with the one in force
  (src/raft/state_machine.rs:667-673).
- The **command laws** are about one applied command that is not a replay
  (`FirstSeen`), on any group that keeps the invariant. They relate the group before
  to the group after and to the answer, not to how the command is executed. What a
  sweep did is told by `Turns.SweptOver`, for the list of waiters it tried and the
  tables each one met at its turn. A waiter is held back by an earlier one on the list
  that stays; otherwise it is granted, kept, told or dropped by what it met
  (`TurnLaw`), and only an owner's own turn changes that owner's holds (`HoldLaw`).
- The **route theorems** also take it that an acquire's namespace contains every
  path it names. The router resolves all of them to one namespace and refuses the
  request otherwise (src/cluster/router.rs:1122-1137); `Routing.ResolvedContains`
  shows that what it resolves to contains the path.
- **Exclusion is over stored records**, live or dead. An acquire that carries only
  releases re-arms a lapsed lease without cleaning up, so a statement about live
  owners would not be inductive.
- Time is a 64-bit millisecond count. Expiry sums saturate, the expiry index rounds
  long leases up to a quantum, and minted tokens saturate at the largest 64-bit
  signed integer, as in the source.
- Where the code and its documentation differ, the code is followed: reads are
  refused under write-only algorithms before any other check
  (src/engine.rs:1198-1203), changing a namespace's algorithm clears its holds
  (src/raft/state_machine.rs:630-646), fences are monotone per path and not
  globally, and the targeted sweep does not consider every earlier waiter although
  its comment says FIFO order is preserved (src/queue.rs:615-625).

Six statements one would expect are false of the code. Each has a lemma with an
input that shows it and a lemma with the exact condition under which it holds:

| expectation | counterexample | condition |
|---|---|---|
| a validated acquire always applies | `AllOrNothing.HalfGrant` | `AllOrNothing.ApplyFailsIff` |
| the targeted sweep never lets a waiter overtake | `Barging.TargetedSweepBarges` | `Fairness.OvertakenIff` |
| a committed command replays for its whole window | `Replay.NoopDisplaces` | `Replay.ApplyOnceIff` |
| installing a snapshot wipes whatever a group held | `Snapshot.LastGroupLeavesKey` | `Snapshot.WipeReaches` |
| a full sweep leaves no waiter it could grant | `Stalled.InlineReleaseStalls` | `Leftover.FullSweepExact` |
| whoever has something in a hold set has a lease record | `Leases.SweepKeepsHalfGrant` | `Leases.AcquireLeasedIff` |

The third and the fourth need inputs the daemon does not produce. The only no-op
it proposes carries no request id (src/cluster/router.rs:1022-1026), and then
`Replay.ApplyOnce` holds without a proviso. No key builder writes a key that the
wipe misses, so `Snapshot.SnapshotReproduces` holds for every state the code
writes, in every group, the system group included.

The first and the last are one fault seen twice. A list that names a fresh semaphore
path twice with different permits passes validation and fails halfway through
execution. A direct acquire is then refused and its writes are discarded
(src/raft/state_machine.rs:205-261). A waiter with such a list that a sweep tries is
dropped instead, and its half grant commits with the command that swept
(src/queue.rs:680-706). The permit it took belongs to an owner without a lease, which
no expiry reaches; only another request for the path prunes it. `Leases.LeasesAlways` confines this, over every run, to owners
whose clashing acquires were parked.

For the fifth, a caller who cannot know the grants to come has `Leftover.FullSweepSettles`:
it is enough that no later waiter carries an inline release that meets the paths of
the one in question.

## Model

| member | source | states |
|---|---|---|
| `Theorems.ExclusionAlways` | src/engine.rs:737-758 | after every run no two owners have stored write or read holds that conflict, and both descendant indexes and the algorithm markers are exact views of the lock tables |
| `Theorems.OneAlgorithmAlways` | src/raft/state_machine.rs:731-752 | after every run each stored hold and each live waiter carries the algorithm now in force in its namespace |
| `Theorems.SemaphoreBoundAlways` | src/engine.rs:1204-1225 | after every run a path's stored semaphore holders, dead ones included, are at most its capacity |
| `Theorems.CapacityFixed` | src/engine.rs:872-886 | a capacity once set is the same after any further run |
| `Theorems.QueueAccountingAlways` | src/queue.rs:137-182 | after every run the unit counter equals the sum over stored entries and is within the cap, and the capped scan returns exactly the live waiters in order |
| `Theorems.SupersededTokenDead` | src/engine.rs:1678-1708 | once a path has left its writer, by release, lapse or a grant to another, no assertion with the old token succeeds in any continuation, by anyone, at any time, even if the same owner is granted the path again |
| `Replay.ApplyOnceIff` | src/raft/state_machine.rs:139-262 | a committed command re-applied within its window after any other commands changes nothing, and returns the first response exactly when no command in between reuses its id with a stamp past the window, or it cannot be told from a no-op; otherwise it is refused as a mismatch |
| `Replay.ApplyOnce` | src/raft/state_machine.rs:139-262 | if no no-op carries its id, as none proposed does, a committed command is replayed for its whole window, and its id with another operation is refused; neither changes anything |
| `Replay.ReuseRefused` | src/raft/state_machine.rs:163-189 | its id with a different operation is refused and changes nothing, displaced or not |
| `Replay.RunSplits` | src/raft/state_machine.rs:163-189 | at the end of any run within its window a dedupe record is the one first written exactly when no later stamp reused the id, and otherwise a no-op reused it and its own record is stored |
| `Replay.NoopDisplaces` | src/raft/state_machine.rs:215-234 | the failing case: a no-op with the same id, stamped past the window, replaces the record without moving the clock |
| `Theorems.RefusedLeavesNoTrace` | src/raft/state_machine.rs:205-261 | any command with a later stamp is answered as if a refused one before it had never been applied, and leaves the same group, clock included unless it is itself one that keeps the clock |
| `Runs.ApplyProgress` | src/raft/state_machine.rs:139-262 | every command, granted, refused or replayed, keeps the group invariant, never lowers a fence or the clock, and files slots only at or after the clock |
| `Runs.RunProgress` | src/raft/state_machine.rs:128-137 | the same over any log |
| `Runs.ExecuteMoves` | src/raft/state_machine.rs:541-677 | every operation but garbage collection keeps locks and queue sound under the policies it leaves in force |
| `Commands.ReleaseApplied` | src/raft/state_machine.rs:548-557 | a release takes exactly the named locks of the owner, and its lease with the last of them, then tries in FIFO order exactly the live waiters with a path at, above or below a released one; the answer lists exactly those told |
| `Commands.ReleaseEffect` | src/raft/state_machine.rs:548-557 | afterwards a named lock is held only if a waiter of that owner asked for it and was granted by the command, or clashes with itself; every other live hold stays unless a waiter granted by the command gave it up |
| `Commands.ReleaseSettles` | src/raft/state_machine.rs:548-557 | a waiter refused before a release and left waiting after it is behind an earlier one, still refused, or met by what a waiter granted by the command gave up |
| `Commands.EvictApplied` | src/raft/state_machine.rs:558-571 | a release-all or a forced release takes everything of one owner and its place in the queue, nothing of anyone else, and then tries every other live waiter in FIFO order |
| `Commands.EvictEmpties` | src/raft/state_machine.rs:558-571 | nothing of that owner is left, no hold, hold-set member, lease or waiter, whatever the sweep grants |
| `Commands.EvictSpares` | src/raft/state_machine.rs:558-571 | any other live hold stays unless a waiter granted by the command gave it up |
| `Commands.EvictSettles` | src/raft/state_machine.rs:558-571 | a waiter left waiting is behind an earlier one, still refused, or met by what a later waiter's grant freed |
| `Commands.RenewApplied` | src/raft/state_machine.rs:563-566 | a renewal succeeds exactly for a live owner with something in its hold set, and then changes that one lease; otherwise nothing |
| `Commands.CounterApplied` | src/raft/state_machine.rs:845-860 | the counter command answers with the counter it leaves, one more than before below saturation, and changes nothing else |
| `Commands.NoopApplied` | src/raft/state_machine.rs:611 | a no-op changes nothing, not even the clock |
| `Collect.CollectApplied` | src/raft/state_machine.rs:594-606 | a collection processes the first due slots in key order, as many as its batch and at least one, removes exactly the expired records behind them with the holds of lapsed owners, moves the cursor, and if any of them was not a dedupe record tries every live waiter |
| `Collect.ReclaimExact` | src/raft/state_machine.rs:787-819 | record by record: gone is exactly what some processed slot points at and finds expired, and what an expired waiter takes along; each slot that finds its own record expired and still there counts once |
| `Collect.CollectSettles` | src/raft/state_machine.rs:594-606 | if the batch may unblock anyone, a waiter left waiting is behind an earlier one, still refused, or met by what a later waiter's grant freed |
| `Epochs.SetApplied` | src/raft/state_machine.rs:630-646 | setting a policy puts the algorithm in force and leaves other rows; a new row or algorithm raises the epoch, clears exactly what the namespace takes over, and answers with exactly the owners who lost a hold-set member or a waiter, in order; otherwise nothing happens |
| `Epochs.DeleteApplied` | src/raft/state_machine.rs:647-658 | deleting a policy removes the row and clears exactly the namespace's own records, with the same report; without a row nothing happens |
| `Epochs.ClearIs` | src/raft/state_machine.rs:458-526 | clearing removes exactly the members and waiters taken over: the namespace's own, and for a new root those of earlier routes below it outside explicit namespaces nested there; with their holds, and the leases of owners left with nothing |
| `Epochs.EpochsGrow` | src/engine.rs:768-789 | over every log without a delete of the namespace its epoch never goes back, and its record changes only with a higher epoch, below saturation |
| `Epochs.BoundedAlways` | src/engine.rs:776-780 | epochs stay within 64 bits over every log |
| `Epochs.RowsApplied` | src/raft/state_machine.rs:541-677 | no command but a policy command for a namespace changes the record in force there |
| `Stamps.OvertakenStampDead` | src/raft/state_machine.rs:731-752 | once a command has given a namespace a row or a new algorithm, an acquire stamped with an earlier record is refused in every continuation that does not delete the policy |
| `Stamps.StampDecides` | src/raft/state_machine.rs:659-677 | an acquire is refused for its route exactly when some named path's longest explicit root is another namespace, and past that test refused for its policy exactly when the record in force is not the stamped one |
| `Admission.AcquireAnswered` | src/raft/state_machine.rs:319-411 | every acquire command, case by case and exactly: refused for its route; refused for its policy record; parked, or refused with the queue full, if a waiter ahead of it or a live hold conflicts; granted if every request is grantable; otherwise refused for good. A refusal changes nothing |
| `Admission.BlockerIs` | src/queue.rs:530-584 | an acquire yields exactly when a live waiter ahead of its owner conflicts with something it asks for and does not hold or cover, and to the first such waiter |
| `Admission.EnqueueIs` | src/queue.rs:197-246 | parking is refused exactly when the other owners' units leave no room; otherwise the request waits for its time or a minute, in its old place if repeated and behind everyone if not, and no other waiter moves |
| `Admission.MintIs` | src/raft/state_machine.rs:413-451 | a write acquire without a token gets the least one above the counter and above every fence it must beat, below saturation, and the counter becomes it; any other keeps its own |
| `Admission.WantsAre` | src/queue.rs:60-71 | an acquire contends for exactly the scoped paths it newly asks for |
| `Admission.UnitsAre` | src/queue.rs:73-75 | a waiter counts for as many units as it newly asks for, at least one |
| `Admission.HoldsOrCoversIff` | src/queue.rs:393-419 | admission leaves a path out of account exactly when a hold of the owner on record serves the request or covers it from above |
| `Admission.ContendedParks` | src/raft/state_machine.rs:387-400 | an acquire refused for contention is parked, its answer names a live hold in its way, and only lapsed records are gone |
| `Granting.GrantApplied` | src/raft/state_machine.rs:352-386 | a granted acquire gains its owner what it newly asked for, less what it released inline, and takes nothing from anyone; its lease runs for the time asked, from now; its answered token is the fence of every write lock kept; the owner's waiter is gone; every live waiter is tried if the owner started afresh, otherwise exactly those that want a released path |
| `Granting.GrantAsserts` | src/engine.rs:1678-1708 | the answered token asserts every write lock the acquire asked for and kept, through the sweep that follows and while its lease lives |
| `Granting.GrantSettlesWaiters` | src/raft/state_machine.rs:352-386 | a waiter refused before the grant and left waiting after it is behind an earlier one, still refused, or met by what a granted waiter gave up |
| `Stamps.GrantsAssertAlways` | src/engine.rs:1678-1708 | so after every run from an empty group, minted tokens included |
| `Stamps.CounterGrows` | src/raft/state_machine.rs:413-451 | over every log the counter never falls and stays in its range |
| `GcProgress.GcCatchesUp` | src/raft/state_machine.rs:772-833 | sweeps whose batches add up to the backlog due before a time empty it, whatever commands run in between |
| `GcProgress.NothingOverdue` | src/raft/state_machine.rs:772-833 | with an empty backlog no lease, waiter, queue index or dedupe record is stored that expired a quantum or more before that time |
| `Leases.LeasesAlways` | src/engine.rs:1101-1130 | after every run whoever has something in a hold set has a lease record, or is an owner whose clashing acquire was parked |
| `Leases.HoldsCollected` | src/raft/state_machine.rs:787-819 | so with an empty backlog every stored hold of any other owner is under a lease that is not a quantum overdue |
| `Leases.AcquireLeasedIff` | src/engine.rs:1101-1130 | an acquire keeps every hold set leased exactly unless it clashes with itself, passes validation, and its owner has no live lease |
| `Leases.SweepKeepsHalfGrant` | src/queue.rs:680-706 | a sweep drops a clashing waiter, tells nobody, and leaves its permit to an owner without a lease |
| `GcProgress.SweepDrains` | src/raft/state_machine.rs:773-786 | one sweep removes a full batch of the backlog or all of it |
| `GcProgress.BatchTakes` | src/raft/state_machine.rs:773-786 | a batch takes the slots that were due longest, an empty batch still one |
| `GcProgress.BacklogNeverGrows` | src/store_rocksdb.rs:710-726 | no command adds a slot to a backlog that is already due |
| `GcProof.ReclaimSpares` | src/raft/state_machine.rs:787-819 | reclaiming any due slots deletes no unexpired lease, waiter or dedupe record, and no hold of an owner whose lease has not lapsed |
| `GcProof.ReclaimKept` | src/raft/state_machine.rs:787-819 | reclaiming keeps the invariant, removes exactly the processed slots, and leaves every stored record covered by a slot |
| `GcProof.AfterBatchBehind` | src/raft/state_machine.rs:821-832 | after a batch every remaining slot lies past the cursor |
| `GcProof.GcSweepKept` | src/raft/state_machine.rs:594-606 | the whole sweep, with the grant sweep it triggers, keeps the invariant |
| `GcProof.ExpireGood` | src/queue.rs:265-283 | expiring an entry subtracts exactly its units, keeps the queue good and touches no live waiter |
| `PolicyProof.ClearHoldsEmpties` | src/store_rocksdb.rs:1366-1402 | clearing a namespace leaves no hold of it, whoever owns it |
| `PolicyProof.ClearExact` | src/raft/state_machine.rs:495-517 | changing or deleting a policy removes exactly the holds of that namespace |
| `PolicyProof.NestedKept` | src/raft/state_machine.rs:471-494 | creating a root keeps every hold of an explicit namespace nested below it |
| `Routes.ClearQueueExact` | src/queue.rs:313-335 | clearing a namespace, by its own entries or by legacy routes, removes exactly the live waiters it selects and no other |
| `Routes.RoutesAlways` | src/raft/state_machine.rs:458-526 | after every run, whatever roots were created and deleted, each hold-set member and each requested path of a live waiter belongs to the root it is filed under if there is one, and otherwise to no root: clearing never leaves a record behind under a wrong root |
| `Routes.RootsGovern` | src/raft/state_machine.rs:630-658 | after every run each stored hold and each live waiter carries the algorithm of the longest explicit root that contains its public path, or the fallback |
| `Roots.RootOfIff` | src/raft/state_machine.rs:709-717 | the root of a path is the one longest explicit root that contains it |
| `PolicyProof.SetPolicyMoves` | src/raft/state_machine.rs:630-646 | setting or re-setting a policy keeps the group sound under the new policy |
| `PolicyProof.DeletePolicyMoves` | src/raft/state_machine.rs:647-658 | deleting a policy keeps the group sound under the fallback |
| `ClearProof.ReleaseClears` | src/engine.rs:1489-1541 | releasing one owner's locks in one namespace clears exactly those hold-set members and their holds |
| `ClearProof.ClearTwice` | src/raft/state_machine.rs:501-517 | clearing group by group amounts to clearing all members at once, leases included |
| `MachineProof.ExecuteAcquireMoves` | src/raft/state_machine.rs:319-411 | an acquire with minting, admission, parking, grant and sweep keeps the group sound |
| `MachineProof.NothingParked` | src/raft/state_machine.rs:338-411 | an acquire that asks for nothing is never parked |
| `MachineProof.SweepAllMoves` | src/raft/state_machine.rs:275-279 | the full grant sweep keeps the group sound |
| `MachineProof.SweepPathsMoves` | src/raft/state_machine.rs:286-293 | the targeted grant sweep keeps the group sound |
| `Fairness.FreedPathsAre` | src/raft/state_machine.rs:308-317 | the targeted sweep is given exactly the released paths, once each |
| `Fairness.MintedIsFresh` | src/raft/state_machine.rs:413-451 | below the saturation point a minted token exceeds the counter and is not stale for any path it is to write |
| `Fairness.EnqueuePlace` | src/queue.rs:197-246 | a repeated request keeps its place, any other goes behind every stored entry |
| `Fairness.EnqueueLocal` | src/queue.rs:197-246 | parking one owner leaves every other owner's waiter unchanged |
| `Fairness.EnqueueWaits` | src/queue.rs:223-246 | a parked request is the live waiter under its sequence number and found through its owner |
| `Fairness.NewcomerYields` | src/raft/state_machine.rs:338-350 | an acquire granted at once conflicts with no earlier live waiter on a path its owner does not already hold or cover |
| `Fairness.OvertakenIff` | src/queue.rs:626-655 | an earlier waiter in conflict with one the targeted sweep grants stays queued exactly when none of its own paths is, or lies above or below, a freed path |
| `Fairness.CandidateIff` | src/queue.rs:637-644 | the path indexes find exactly the live waiters with such a path |
| `Leftover.FullSweepExact` | src/queue.rs:607-612 | a waiter the full sweep leaves queued, behind no earlier conflicting one, was refused at its turn, and could be granted in the resulting tables exactly when nothing but contention stood against it and every hold in its way was given up by a later grant of its owner, for a semaphore enough of them, under tokens below its own |
| `Leftover.SweepExact` | src/queue.rs:666-708 | the same of the shared loop, on any list of waiters and whatever was reserved before |
| `Leftover.TargetedSweepExact` | src/queue.rs:626-655 | the same of the targeted sweep, for the waiters it considers |
| `Leftover.ClearsNow` | src/engine.rs:1069-1130 | with no later grants that condition is the acquire's own decision |
| `Leftover.FullSweepProgress` | src/queue.rs:607-612 | a waiter the full sweep leaves queued conflicts with an earlier one left queued, or would be refused in the resulting tables, or wants a path that meets one a later waiter gave up as it was granted |
| `Leftover.FullSweepSettles` | src/queue.rs:607-612 | the third case cannot arise when no later waiter carries an inline release that meets the waiter's paths, or a lease that is over at once |
| `Leftover.TargetedSweepSuffices` | src/queue.rs:614-625 | after a release, a waiter that was refused before and that the sweep of the freed paths leaves queued, looked at or not, is in the same three cases |
| `Leftover.FreedSweepSuffices` | src/queue.rs:614-625 | the same of any tables in which no waiter off the list could be granted |
| `Turns.TurnExact` | src/queue.rs:666-708 | each waiter of the list is granted exactly when nothing reserved conflicts with it and all its requests are grantable in the tables of its turn; it stays exactly when it is held back, or stopped by contention or by its token; and its owner is told exactly when it is granted or stopped by its token |
| `Turns.SweepObeys` | src/queue.rs:666-708 | the whole loop is these turns in order, with the reservations told as earlier waiters of the list that stay; those told come in list order, each once, and waiters off the list stay as they were |
| `Turns.SweepHolds` | src/queue.rs:666-708 | hold by hold: only the owner's own turn changes a live hold; a grant gives it what it newly asked for less what it gives up |
| `Turns.SweepKeepsFence` | src/queue.rs:666-708 | a write lock under a live lease, of an owner the sweep does not try, keeps its fence |
| `Turns.FullSweepTurns` | src/queue.rs:607-612 | the full sweep is such a loop over exactly the live waiters in FIFO order |
| `Turns.TargetedSweepTurns` | src/queue.rs:626-655 | the targeted sweep is such a loop over exactly the live waiters with a path that meets a freed one, in FIFO order |
| `Progress.UntouchedUnready` | src/queue.rs:617-621 | a waiter that could be granted only since a release has a path that meets a freed one, so it is among the candidates |
| `Progress.NeverReady` | src/engine.rs:1069-1130 | other owners' acquires and releases never make a refused acquire grantable unless they free a path that meets one it wants |
| `Stalled.InlineReleaseStalls` | src/queue.rs:680-686 | a state in which the full sweep lets an owner move from x to y and leaves the waiter for x queued, behind nobody, though x is now free |
| `Barging.TargetedSweepBarges` | src/queue.rs:626-655 | a state and a freed path for which the targeted sweep grants a waiter over an earlier conflicting one |
| `Delivery.FullSweepDelivers` | src/queue.rs:681-686 | a waiter the full sweep grants is notified and no longer queued, and holds everything it asked for and did not give up inline under a live lease when the sweep ends, exactly unless that lease is over as it is granted |
| `Delivery.GrantedHold` | src/queue.rs:666-708 | the same hold by hold for the shared loop: no later grant of the sweep takes a lock from an earlier one |
| `SweepProof.FullSweepFifo` | src/queue.rs:607-612 | no waiter the full sweep grants conflicts with an earlier one still queued afterwards, woken ones included |
| `SweepProof.TargetedSweepFifo` | src/queue.rs:626-655 | the same for the targeted sweep among its candidates |
| `SweepProof.NoBarging` | src/queue.rs:666-708 | the shared loop never grants over a conflicting waiter it leaves queued, whatever was reserved before |
| `SweepProof.SweepGood` | src/queue.rs:666-708 | every replayed acquire and every dropped waiter keeps tables and queue good |
| `SweepProof.ScanComplete` | src/queue.rs:286-307 | the cap on the scan never drops a waiter |
| `SweepProof.LiveEntriesFacts` | src/queue.rs:337-356 | the scan lists exactly the live waiters, in sequence order |
| `EnqueueProof.EnqueueGood` | src/queue.rs:197-246 | enqueue, re-arm and replacement keep indexes, accounting and filing |
| `QueueProof.DequeueGood` | src/queue.rs:250-263 | dequeue keeps them and removes exactly that owner's live waiter |
| `QueueProof.EntriesWithinUnits` | src/queue.rs:73-75 | there are never more entries than units |
| `QueueProof.TimePasses` | src/queue.rs:364-369 | time passing only retires waiters |
| `SweepProof.FirstBlockerIff` | src/queue.rs:556-583 | the admission check reports a blocker exactly when a live earlier waiter of another owner conflicts, and reports the first |
| `WaitQueue.CandidatesCover` | src/queue.rs:530-584 | walking only indexed candidates finds the same first blocker as walking all live waiters |
| `WaitQueue.CandidatesSuffice` | src/queue.rs:563-583 | sequence numbers outside the candidates never change the first blocker |
| `WaitQueue.PathRecordsBounded` | src/queue.rs:441-508 | path records never outnumber the scan limit, so index scans never fail on it |
| `WaitQueue.QueueTxn.CountUnits` | src/queue.rs:137-154 | returns the stored counter, or the sum over all entries when none is stored, and stores it |
| `WaitQueue.QueueTxn.ReserveUnits` | src/queue.rs:166-177 | reserves units with saturating subtraction, refusing exactly above the cap |
| `WaitQueue.QueueTxn.ReleaseUnits` | src/queue.rs:179-182 | releases units |
| `WaitQueue.QueueTxn.WritePathIndexes` | src/queue.rs:371-376 | writes one record and slot per contended path |
| `WaitQueue.QueueTxn.DeletePathIndexes` | src/queue.rs:378-383 | deletes exactly the entry's path records |
| `WaitQueue.QueueTxn.EnqueueEntry` | src/queue.rs:197-246 | computes the specified enqueue; when the queue is full, none, with the owner's earlier place given up and the units counted |
| `WaitQueue.QueueTxn.DequeueOwner` | src/queue.rs:250-263 | computes the specified dequeue |
| `WaitQueue.QueueTxn.ExpireStored` | src/queue.rs:265-283 | computes the specified expiry |
| `WaitQueue.QueueTxn.ScanLive` | src/queue.rs:286-307 | the capped scan |
| `WaitQueue.QueueTxn.CollectRange` | src/queue.rs:441-474 | collects live records' sequence numbers, failing exactly above the scan limit |
| `WaitQueue.QueueTxn.CollectAround` | src/queue.rs:638-644 | collects the waiters indexed at a path, at its ancestors and, on request, below it |
| `WaitQueue.QueueTxn.BlockedByEarlierIndexed` | src/queue.rs:530-584 | the indexed admission check equals the check over all live waiters |
| `WaitQueue.QueueTxn.RunGrantSweep` | src/queue.rs:666-708 | the loop with reservations computes the sweep that `Turns.SweepObeys` describes turn by turn |
| `WaitQueue.QueueTxn.SweepAll` | src/queue.rs:607-612 | the full sweep |
| `WaitQueue.QueueTxn.SweepFreed` | src/queue.rs:626-655 | the targeted sweep over exactly the waiters whose paths meet a freed path |
| `Reserved.ConflictWhere` | src/queue.rs:725-770 | a conflicting path is the path itself, an ancestor of it or below it |
| `Reserved.ReservedPaths.Insert` | src/queue.rs:772-780 | adds exactly the given wants |
| `Reserved.ReservedPaths.PathConflicts` | src/queue.rs:725-770 | the indexed conflict check equals the pairwise test against everything reserved |
| `Reserved.ReservedPaths.Conflicts` | src/queue.rs:716-723 | the same for all of a waiter's paths |
| `EngineProof.AcquireGood` | src/engine.rs:1069-1130 | every acquire, granted or refused, keeps the invariant, never lowers a fence, raises it strictly under a new writer, and never changes a capacity |
| `EngineProof.ReleaseGood` | src/engine.rs:1489-1541 | releases keep the invariant |
| `EngineProof.ReleaseOwnerGood` | src/engine.rs:1586-1611 | owner-wide release keeps the invariant |
| `EngineProof.ReleaseOwnerComplete` | src/engine.rs:1586-1611 | owner-wide release leaves no write, read or semaphore record of the owner, and every record of everyone else |
| `EngineProof.RefreshGood` | src/engine.rs:1323-1325 | a lease refresh keeps the invariant and files a slot that covers it |
| `LockInvariant.GoodExcludes` | src/engine.rs:737-758 | the invariant implies that no two owners' stored locks conflict |
| `LockInvariant.DropGood` | src/engine.rs:1436-1468 | removing any holds keeps the invariant while the hold sets still cover the rest |
| `ValidateProof.AllOk` | src/engine.rs:1132-1150 | validation only removes holds of lapsed owners, and a pass leaves every request clear of every conflicting record, dead ones included |
| `ApplyProof.ApplyAllOk` | src/engine.rs:1335-1416 | applying a validated list keeps the invariant and puts every granted hold on record, unless two requests clash on permits |
| `Decision.SubtreeDecides` | src/engine.rs:968-1031 | the indexed subtree search finds a conflict exactly when a scan of the lock tables would |
| `Decision.ContendedIffBlocked` | src/engine.rs:1187-1321 | the checks by ancestor, path and subtree together equal the pairwise conflict test against live holds |
| `Decision.NewDecides` | src/engine.rs:1187-1248 | every new request: refused for contention exactly when a live lock of another owner conflicts or the live holders of a semaphore take every permit; failing that, a lock exactly when its token is stale and a semaphore exactly when its permits are zero or differ from the capacity; reads exactly when the algorithm has none |
| `AcquireDecision.AcquireDecides` | src/engine.rs:1069-1130 | an acquire, of locks or semaphores, new or held, is granted exactly when its owner has a live lease if it claims held locks, each new request has nothing live in its way and a fresh token or fitting permits, each held one is on record under a token not below the fence, and no two requests clash on permits |
| `Outcomes.AcquireEnds` | src/engine.rs:1069-1130 | granted, refused for contention or refused for its token, each exactly on its condition, by the first request that cannot be granted |
| `Outcomes.AcquireRefuses` | src/engine.rs:1132-1150 | a refusal is of the kind of that first request |
| `Outcomes.AnswersToken` | src/engine.rs:1114-1129 | the token a grant answers is the stored fence of every write lock asked for and kept, and 0 without a positive token |
| `Outcomes.AssertIff` | src/engine.rs:1678-1708 | an assertion succeeds exactly for a live owner that writes every path under exactly the asserted token |
| `Outcomes.ClashRefused` | src/engine.rs:1351-1362 | a list that clashes with itself and is otherwise grantable is refused for its permits |
| `Blame.AcquireBlames` | src/engine.rs:1187-1321 | a refusal for contention names, for the first request that cannot be granted, another owner's live hold in its way: its owner, its path, and the reason that fits where it lies |
| `Blame.AcquireSays` | src/engine.rs:1151-1321 | any other refusal names that request's own path, and the stored fence or capacity it fell short of |
| `AcquireDecision.AcquireKeepsLive` | src/engine.rs:1069-1130 | no acquire takes a hold from another owner whose lease is live |
| `AllOrNothing.AcquireAllOrNothing` | src/engine.rs:1069-1130 | unless permits clash, an acquire grants every request or removes only holds of lapsed owners |
| `AllOrNothing.ApplyFailsIff` | src/engine.rs:1351-1362 | after validation the apply phase fails exactly when two new requests name one uncapped path with different permits |
| `AllOrNothing.HalfGrant` | src/engine.rs:1351-1362 | such a list leaves half a grant in the transaction, for an owner without a lease |
| `AcquireFrame.AcquireHolds` | src/engine.rs:1069-1130 | a hold an acquire does not newly ask for is live after it exactly when it was before, unless it is granted and gives the hold up inline or with a lease that is over at once |
| `AcquireFrame.AcquireElsewhere` | src/engine.rs:1069-1130 | other owners' leases stay; off the newly asked paths capacities stay, and a fence moves exactly when a granted acquire carries its write lock over to its own token |
| `AcquireFrame.ReleaseExact` | src/engine.rs:1418-1468 | releases remove exactly the owner's named holds |
| `AcquireFrame.AcquireOthers` | src/engine.rs:1069-1130 | an acquire leaves the hold sets and leases of other owners as they are |
| `AcquireFrame.LapsesIff` | src/store_keys.rs:433-444 | a lease is over as it is granted exactly at the last tick of the clock |
| `Engine.LockTxn.AddDescendantIndexes` | src/engine.rs:934-951 | files a path under each of its ancestors |
| `Engine.LockTxn.RemoveDescendantIndexes` | src/engine.rs:953-966 | removes exactly those entries |
| `Engine.LockTxn.GetLiveWriteOwner` | src/engine.rs:921-932 | returns the live writer and prunes a dead one |
| `Engine.LockTxn.PruneDeadReadOwners` | src/engine.rs:888-902 | removes exactly the dead readers and returns the rest |
| `Engine.LockTxn.PruneDeadSemaphoreOwners` | src/engine.rs:906-919 | removes exactly the dead holders and returns the rest |
| `Engine.LockTxn.FindDescendantWriteConflict` | src/engine.rs:968-996 | computes the specified search for a foreign writer below, pruning as it goes |
| `Engine.LockTxn.FindDescendantReadConflict` | src/engine.rs:998-1031 | the same for foreign readers |
| `Engine.LockTxn.ValidateNewAncestors` | src/engine.rs:1250-1269 | the ancestor check |
| `Engine.LockTxn.ValidateNewWriteLock` | src/engine.rs:1272-1321 | the checks of a new write lock: readers, subtree, fence |
| `Engine.LockTxn.ValidateNewLock` | src/engine.rs:1187-1248 | the checks of a new lock, in the code's order |
| `Engine.LockTxn.ValidateAcquire` | src/engine.rs:1132-1150 | the whole request list, stopping at the first refusal |
| `Engine.LockTxn.ApplyWriteAcquire` | src/engine.rs:1385-1416 | writes lock, fence, indexes and hold records |
| `Engine.LockTxn.ApplyAcquire` | src/engine.rs:1335-1383 | applies one request under the algorithm that governs it |
| `Engine.LockTxn.ApplyRequests` | src/engine.rs:1101-1112 | applies the list in order |
| `Engine.LockTxn.ReleaseHold` | src/engine.rs:1436-1468 | removes one hold from every table and no other record |
| `Engine.LockTxn.ReleaseRequests` | src/engine.rs:1418-1434 | removes each named hold and its member |
| `Engine.LockTxn.ReleaseLocks` | src/engine.rs:1489-1541 | the same, and the lease of an owner left with nothing |
| `Engine.LockTxn.HoldSetPage` | src/store_rocksdb.rs:453-492 | one page of a hold set from a cursor: ascending, none skipped, and the next cursor is the least member left out |
| `Engine.LockTxn.ReleaseOwnerWide` | src/engine.rs:1586-1611 | the paged walk that deletes as it goes, for any page size, ends with exactly the owner's records gone |
| `Engine.LockTxn.AcquireInNamespace` | src/engine.rs:1069-1130 | the acquire as one step of the tables, keeping the invariant; a grant answers with the acquire's positive token, which is then the stored fence of every write lock it asked for and did not release inline, or with 0 |
| `EngineProof.RenewExact` | src/engine.rs:1625-1644 | a lease is renewed exactly for a live owner with something in its hold set, and then only the lease and its slot change; otherwise nothing does |
| `Engine.LockTxn.AssertFence` | src/engine.rs:1678-1708 | succeeds exactly for a live owner that writes every path, with the stored token of each |
| `Machine.GroupTxn.MintFenceIfNeeded` | src/raft/state_machine.rs:413-451 | the minting loop |
| `Machine.GroupTxn.ScopedFreedPaths` | src/raft/state_machine.rs:308-317 | the freed paths without repeats |
| `Machine.GroupTxn.ExecuteMintedAcquire` | src/raft/state_machine.rs:319-411 | admission, acquire, then settle, park or refuse |
| `Machine.GroupTxn.SettleAcquire` | src/raft/state_machine.rs:354-386 | leave the queue and run the full or the targeted sweep |
| `Machine.GroupTxn.RouteIsStale` | src/raft/state_machine.rs:679-729 | stale exactly when some named path lies in an explicit root and the longest such root is not the stamped namespace |
| `Machine.GroupTxn.CollectHolds` | src/store_rocksdb.rs:1366-1402 | groups exactly the selected hold-set members by namespace and owner |
| `Machine.GroupTxn.ReleaseGroups` | src/raft/state_machine.rs:501-517 | releasing group by group clears exactly the collected members |
| `Machine.GroupTxn.ClearNamespaceOf` | src/raft/state_machine.rs:458-526 | the whole clearing and the affected owners in order |
| `Machine.GroupTxn.SetNamespacePolicy` | src/raft/state_machine.rs:630-646 | puts the algorithm in force; a new row or a new algorithm raises the epoch, below saturation, and clears the namespace; otherwise nothing changes |
| `Machine.GroupTxn.DeleteNamespacePolicy` | src/raft/state_machine.rs:647-658 | removes the row and clears if there was one |
| `Machine.GroupTxn.CollectDue` | src/raft/state_machine.rs:773-785 | the due slots past the cursor, in key order, up to the batch |
| `Machine.GroupTxn.ReclaimSlots` | src/raft/state_machine.rs:787-819 | the reclaim loop with its flag, and its count as `Collect.ReclaimExact` describes it |
| `Machine.GroupTxn.GcSweepOnce` | src/raft/state_machine.rs:594-606 | the whole sweep |
| `Machine.GroupTxn.ExecuteOp` | src/raft/state_machine.rs:541-677 | every operation computes its specification, whose effects the laws of `Commands`, `Collect`, `Epochs`, `Admission` and `Granting` state |
| `Machine.GroupMachine.ApplyCommand` | src/raft/state_machine.rs:139-262 | clamp, replay, execute, then commit or discard, keeping the invariant |
| `Paths.CollectAncestors` | src/engine.rs:680-729 | the walk that cuts at the last slash lists exactly the recursive ancestors |
| `Paths.AncestorShape` | src/engine.rs:732-734 | an ancestor is shorter, in the same namespace, and its descendant prefix starts the path |
| `Expiry.LivesFor` | src/store_keys.rs:433-444 | a record with a TTL is live for exactly that long, up to the last tick of the clock; without one it never expires |
| `Expiry.QuantizedIndexExpiry` | src/store_keys.rs:453-460 | the index slot is never before the expiry and less than a quantum after it |
| `Expiry.FileSlotCovers` | src/store_rocksdb.rs:710-726 | filing a record leaves it covered and keeps every other slot |
| `Bytes.UpperOfIs` | src/store_rocksdb.rs:275-286 | the keys with a prefix are exactly those from the prefix up to its upper bound |
| `Bytes.PrefixUpperBound` | src/store_rocksdb.rs:275-286 | the popping loop computes that bound |
| `Bytes.PrefixSuccessor` | src/queue.rs:429-439 | the queue's searching loop computes the same bound |
| `Bytes.SuccessorIsNext` | src/store_rocksdb.rs:289-294 | resuming at the successor skips the key and nothing else |
| `Keys.BigEndianOrder` | src/store_keys.rs:274-279 | big-endian keys are in integer order |
| `Keys.QueueEntryRoundTrip` | src/store_keys.rs:291-298 | decoding an entry key returns its sequence number |
| `Keys.QueuePathRoundTrip` | src/store_keys.rs:330-348 | decoding a path key returns its sequence number, and it is no entry key |
| `Keys.EntryScanIsFifo` | src/store_keys.rs:274-288 | the entry range holds every entry key in sequence order and no owner or path key |
| `Keys.ExactPathScan` | src/store_keys.rs:308-328 | the exact-path range holds the records of that path and of no other |
| `Keys.ExpiryRoundTrip` | src/store_keys.rs:385-398 | decoding an expiry key returns timestamp, family and primary key, NUL bytes included |
| `Keys.ExpiryScanReaches` | src/store_keys.rs:362-368 | the sweep's scan reaches exactly the slots filed before now |
| `Keys.ExpiryOrder` | src/store_keys.rs:351-359 | earlier slots come first |
| `Keys.GroupsDisjoint` | src/store_keys.rs:77-87 | groups share no key and keep their own order |
| `Store.MergeIsRange` | src/store_rocksdb.rs:310-388 | the two-cursor merge is the range of the overlaid map: ascending, each entry once, nothing else |
| `Store.RangeUnique` | src/store_rocksdb.rs:310-388 | ascending order and membership determine the visited list |
| `Store.ScanWithOverlay` | src/store_rocksdb.rs:310-388 | the scan visits that range up to where the visitor stops |
| `Store.OverlaidAt` | src/store_rocksdb.rs:569-592 | a point read through the overlay is a read of the overlaid map |
| `Txn.BatchIsOverlay` | src/store_rocksdb.rs:599-630 | applying the batch to the database is laying the overlay over it |
| `Txn.WriteTxn.Get` | src/store_rocksdb.rs:569-592 | reads see the transaction's own writes through overlay, cache and database |
| `Txn.WriteTxn.PutKey` | src/store_rocksdb.rs:599-617 | a put changes the view at one key |
| `Txn.WriteTxn.DeleteKey` | src/store_rocksdb.rs:619-630 | a delete removes one key from the view |
| `Txn.WriteTxn.ScanMerged` | src/store_rocksdb.rs:636-664 | a group-relative scan visits exactly the group's entries in the relative range and agrees with point reads |
| `Txn.WriteTxn.Commit` | src/store_rocksdb.rs:673-680 | after commit every family is the transaction's view, and before it the database is untouched |
| `Txn.MembersPage` | src/store_rocksdb.rs:453-492 | a page counts the next records from the cursor, returns the unexpired ones among them, and the next cursor is the first record not counted |
| `Txn.GroupRange` | src/store_rocksdb.rs:648-663 | scoping a range by a group's prefix selects exactly that group's keys in the relative range |
| `Snapshot.ImageRoundTrip` | src/raft/snapshot.rs:100-131 | parsing an image returns exactly the frames written, in order |
| `Snapshot.PushFrame` | src/raft/snapshot.rs:100-107 | appends one frame, refusing only one too large for its length field |
| `Snapshot.ForEachFrame` | src/raft/snapshot.rs:109-131 | parses by advancing, failing on bad magic, truncation or an undecodable frame |
| `Snapshot.BuildCaptures` | src/raft/snapshot.rs:142-185 | an image holds the group's state and its own meta exactly, and no Raft key |
| `Snapshot.BuildImage` | src/raft/snapshot.rs:142-185 | builds the image of those frames, and is refused exactly when some frame does not fit its length field or the image would exceed the limit |
| `Snapshot.InstallImage` | src/raft/snapshot.rs:191-234 | wipes and replaces, or fails on an image that does not parse or names an unknown family |
| `Snapshot.SnapshotReproduces` | src/raft/snapshot.rs:142-234 | parsing and installing the bytes of a group's image over any state the code writes gives the source's state families and own meta, keeps the target's Raft keys and every other group, for every group including the system group |
| `Snapshot.TransferGroup` | src/raft/snapshot.rs:142-234 | building on one replica and installing on another does that, or refuses exactly when the image is too large |
| `Snapshot.StateReproducedIff` | src/raft/snapshot.rs:197-206 | a state record is reproduced exactly when the source has it, the target had none there, or the wipe reached it |
| `Snapshot.WipeReaches` | src/raft/snapshot.rs:197-206 | the wipe reaches every key of every group but the system group, and there exactly those that do not start with twelve 0xFF bytes |
| `Snapshot.WrittenWipeable` | src/raft/snapshot.rs:197-206 | so it reaches every key the code stores, in every group |
| `Keys.FewOnes` | src/store_keys.rs:136-359 | no key a builder produces starts with nine 0xFF bytes |
| `Snapshot.LastGroupLeavesKey` | src/raft/snapshot.rs:198-206 | in the system group a key of twelve 0xFF bytes, which nothing writes, would survive |
| `Snapshot.MetaReproduced` | src/raft/snapshot.rs:207-216 | Raft's meta keys stay the target's, all other meta becomes the source's |
| `Snapshot.OthersUntouched` | src/raft/snapshot.rs:191-234 | no key outside the group changes in any family |
| `Deadlock.DetectCycle` | src/cluster/router.rs:1787-1858 | a reported cycle is one of distinct owners each waiting on the next, reachable from the start; none reported means none is reachable; a truncated walk saw that many distinct owners |
| `Deadlock.DecideCycle` | src/cluster/router.rs:1787-1858 | with a depth of at least the number of reachable owners the walk is never truncated and finds a cycle exactly when one is reachable |
| `Roots.RootOfIs` | src/cluster/router.rs:271-288 | a path resolves to the longest explicit root that contains it |
| `Routing.ContainsIs` | src/cluster/placement.rs:77-97 | string containment of validated namespaces and paths is the prefix relation of segments |
| `Routing.FindRoutingPrefix` | src/cluster/placement.rs:49-69 | the counting loop |
| `Routing.RoutingPrefixIs` | src/cluster/placement.rs:49-69 | fallback routing keeps the handler or the first segments up to the depth |
| `Routing.DepthIs` | src/cluster/placement.rs:101-110 | the depth of a validated path is its number of segments |
| `Routing.RoutingClosed` | src/cluster/router.rs:276-304 | a lockable path and everything below it resolve to one namespace, unless an explicit root lies between them |
| `Routing.ResolvedContains` | src/cluster/router.rs:276-304 | explicit or by fallback, a path resolves to a namespace that contains it |
| `Routing.ScopedKeepsAncestors` | src/engine.rs:680-734 | scoped keys of a namespace have exactly the public ancestor relation |
| `Routing.PublicUndoesScoped` | src/engine.rs:568-618 | the public form of a scoped contained path is the path |
| `Routing.PublicAncestors` | src/engine.rs:680-734 | strict ancestors of a validated path are exactly its proper segment prefixes |
| `Routing.NamespaceCache.CacheRoot` | src/cluster/router.rs:306-313 | keeps the roots longest first without repeats |
| `Routing.NamespaceCache.ResolveNamespace` | src/cluster/router.rs:276-304 | returns the first containing root or the fallback |

## Left out

- Acquires without a request id: they skip the policy check and may mix algorithms in one namespace. The tables' functions are stated for states of the invariant, where no owner has both a write lock and a semaphore hold on a path; without ids that can fail.
- Machine.GroupTxn.ExecuteOp: wait edges, cooperative revoke, the directory and node draining operations, and `del_wait` are not among its operations, because they only set and clear single records.
- The cap on set enumeration (65536 members) and the refusals it causes; owner-wide release is paged and has no such cap.
- Sequence numbers, unit counts and policy epochs are natural numbers; the source's saturation of the sequence counter at its 64-bit limit is not modelled, that of epochs is.
- Legacy data: undecodable records, entries stored without a unit counter, wait edges without metadata.
- EngineProof.RenewExact: the revoke marker that a renewal reports back is not modelled, like the revoke operation that sets it.
- Deadlock.DetectCycle: works on a fixed graph of blocking edges; reads of a graph that changes during the walk and the pruning of stale edges are not modelled.
- Machine.GroupMachine.ApplyCommand: the applied log position and whether anything was written are not part of the state.
- The serializer and the operation fingerprint are parameters: the first is only assumed faithful, and nothing is claimed about fingerprint collisions.
- The order of slots with one timestamp follows the kind of record, not the bytes of the column family name.
- Consensus, log storage, networking, gossip, the HTTP and gRPC services, events, configuration and telemetry.

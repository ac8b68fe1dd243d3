# virtrigaud: a verified model of its controllers, resilience layer and disk storage

virtrigaud is a Kubernetes operator that manages virtual machines on several hypervisors.
This project models the parts of it that keep state over many steps, and proves what they
guarantee over every run:

- **The VMMigration phase machine.** `MigrationModel` gives one reconcile as a function of
  the stored status and of the answers of the API server and the providers.
  `MigrationController` has the handlers in their own imperative form, proved to store and
  to call exactly that. `MigrationRuns` strings reconciles, lost status writes, retries and
  a deletion request together and carries the invariant; `MigrationSafety`,
  `MigrationProgress`, `MigrationWaits`, `MigrationLedger`, `MigrationCleanup`,
  `MigrationDeletion`, `MigrationPvc` and `MigrationTarget` hold the theorems about whole
  runs, `MigrationSteps` the exact conditions under which a phase is left. `Backoff` is the
  retry delay in 64-bit arithmetic.
- **The circuit breaker and the retry loop.** `Breaker` is the class and its transitions,
  `BreakerRuns` every interleaving of admissions, recorded results and resets, `Policy` the
  retry loop composed with a breaker, `PolicyRuns` its executions as runs of the breaker.
- **The VirtualMachine reconciler.** `VmModel`, `VmController`, `VmRuns`, split in the same
  way as the migration; `VmLaws` is what a reconcile records, stores and withdraws.
- **Disk storage and text formats.** `PvcStorage` has the chunked copy loops with their
  incremental hash, `StorageUrls` the URLs and paths of exported disks, `CloudInit` the
  multipart document of cloud-config parts and a reader for it. `Text` splits and joins.
- **Adoption.** `Adoption` has the name sanitizer and the discovery loops, `AdoptionRuns`
  the adopt loop over a store of resources, `AdoptionFixpoint` what one pass and any number
  of passes reach.

What the model assumes of its surroundings:

- Reconciles of one migration, or of one VM, are serial, and each reads the status last
  stored. A status write is stored whole or not at all.
- The spec of a migration is not edited while it runs. The desired state of a VM may
  change at any time, except where a theorem fixes it.
- Identifiers that providers return (snapshots, exports, disks, VMs, tasks) and a snapshot
  the user names are not empty; an identifier that the source keeps as an empty string is
  `None`. The VM IDs that adoption lists are not empty, and where a theorem says so they
  are distinct.
- The clock is monotone. Times and durations are integers, in nanoseconds.
- Everything a provider, the API server, the file system or a stream answers is a
  parameter, so a theorem holds for every answer unless it says what it asks of them.

Where an obvious claim is not what the code does, the code is followed, and the theorem
states exactly when the claim holds:

- A retry clears only the task reference. An export or an import whose task failed counts
  as finished on the next attempt, for every migration that can be retried
  (`MigrationWaits.WaitsIff`, `MigrationWaits.FailedTransferCounts`).
- Deleting a migration deletes the PVC it used even if it did not create it: one the user
  named, or one that was there under the generated name (`MigrationPvc.OwnsPvcsIff`).
- The documented exponential delay is cut off by 64-bit overflow: a multiplier of 10 on
  the default 5 minutes gives a negative delay at a retry count of 8
  (`Backoff.DefaultBaseOverflowsAtTen`, `Backoff.DefaultDelayIdealIff`).
- A half-open breaker admits one call more than its limit (`BreakerRuns.EpisodeBound`,
  `BreakerRuns.EpisodeBoundAttained`).
- The wait for the providers to mount the PVC is made once; if it fails, the migration
  still goes on after a lost write or a retry (`MigrationLedger.MountSeenIff`).
- A migration takes over any VM that has the target's name (`MigrationTarget.OwnsTargetIff`).
- With a desired power state other than On or Off, or with neither or both of an image and
  an imported disk, a new VM never becomes ready (`VmRuns.ReadyReachableIff`).
- A VM counts as adopted although it is not, when another VM's name sanitizes to the same
  label or when its name is held by another resource (`AdoptionFixpoint.OnePassSufficesIff`,
  `AdoptionFixpoint.TakenNameCounts`). It is then discovered again for ever, unless a VM
  whose sanitized name is its ID leaves a resource without an ID that hides it
  (`AdoptionFixpoint.TakenNameForeverIff`, `AdoptionFixpoint.LoserForever`).
- A resource left without an ID hides the VM whose ID is its name, so that repeated passes
  can end with that VM left out (`AdoptionFixpoint.AdoptionConvergesIff`).
- Adoption writes a VM's ID into an adopted resource that has none even if the resource
  names another provider (`AdoptionFixpoint.OthersUnchangedIff`).
- A retry loop with no attempts allowed returns nil without calling anything
  (`Policy.NilMeansSuccessIff`).

`dafny verify dfyconfig.toml` checks the whole project. Every lemma carries
`{:induction false}`, so no proof rests on automatic induction.

## Model

| member | source | states |
|---|---|---|
| MigrationController.Reconciler.WriteStatus | internal/controller/vmmigration_controller.go:1867-1912 | The loop stores the working copy whole, if and only if one of three writes is accepted and each before it met a conflict that was refreshed; otherwise the stored status is untouched. |
| MigrationController.Reconciler.TransitionToFailed | internal/controller/vmmigration_controller.go:1285-1309 | Only the phase changes; a lost write leaves the stored status as it was. |
| MigrationController.Reconciler.Reconcile | internal/controller/vmmigration_controller.go:84-187 | The dispatch on the phase stores, calls and panics exactly as `Dispatch`, the step that the theorems on runs are about. |
| MigrationController.Reconciler.EnsureMigrationPVC | internal/controller/vmmigration_controller.go:1432-1540 | A PVC that is found is used, whoever made it; one is created only under the generated name; a named PVC that is missing is an error. |
| MigrationController.Reconciler.HandleValidating | internal/controller/vmmigration_controller.go:212-329 | Stored status and calls equal `ValidatingPhase`, with the intermediate write of the PVC name and the wait that follows only that write. |
| MigrationController.Reconciler.HandleSnapshotting | internal/controller/vmmigration_controller.go:332-447 | Stored status and calls equal `SnapshottingPhase`, a used snapshot reference and a task left behind included. |
| MigrationController.Reconciler.AwaitTask | internal/controller/vmmigration_controller.go:479-522 | The poll of a stored task and what each of its outcomes stores, for exports and imports alike. |
| MigrationController.Reconciler.HandleExporting | internal/controller/vmmigration_controller.go:450-600 | Stored status and calls equal `ExportingPhase`. |
| MigrationController.Reconciler.HandleImporting | internal/controller/vmmigration_controller.go:646-784 | Stored status and calls equal `ImportingPhase`. |
| MigrationController.Reconciler.HandleCreating | internal/controller/vmmigration_controller.go:787-921 | Stored status and calls equal `CreatingPhase`, the dereference of the disk record included. |
| MigrationController.Reconciler.HandleValidatingTarget | internal/controller/vmmigration_controller.go:924-1003 | Stored status and calls equal `ValidatingTargetPhase`. |
| MigrationController.Reconciler.CleanupIntermediateStorage | internal/controller/vmmigration_controller.go:1948-1998 | Deletes the file of the export URL, nothing if there is no URL, and fails only without a storage client. |
| MigrationController.Reconciler.DeleteSourceSnapshot | internal/controller/vmmigration_controller.go:2001-2044 | The one call it makes and when it reports success. |
| MigrationController.Reconciler.HandleReady | internal/controller/vmmigration_controller.go:1006-1066 | Stored status and calls equal `ReadyPhase`: the order of the cleanup and where it stops. |
| MigrationController.Reconciler.HandleFailed | internal/controller/vmmigration_controller.go:1069-1164 | Stored status and calls equal `FailedPhase`: what a retry resets, and when it is due. |
| MigrationController.Reconciler.HandleDeletion | internal/controller/vmmigration_controller.go:1167-1282 | The calls equal `DeletionCalls`, and the status is left alone. |
| MigrationRuns.DispatchMoves | internal/controller/vmmigration_controller.go:212-1164 | Every reconcile, whatever the answers, is one of a few named moves of the stored status together with the calls that go with it. |
| MigrationRuns.Reachable | internal/controller/vmmigration_controller.go:84-1164 | In every run the stored status satisfies the invariant: recorded identifiers come from logged calls with the recorded URL, format, checksum and task; Transferring and Converting are never stored; identifiers imply the ones they depend on. |
| MigrationSafety.RunsAreSound | internal/controller/vmmigration_controller.go:332-1282 | In every run each export, import, poll, VM creation, snapshot deletion and VM deletion is justified by calls made before it. |
| MigrationSafety.TaskAttribution | internal/controller/vmmigration_controller.go:479-766 | A task polled in Exporting was returned by an earlier ExportDisk of this migration for the export waited for, one polled in Importing by its ImportDisk, across retries and lost writes. |
| MigrationSafety.SnapshotOwnership | internal/controller/vmmigration_controller.go:2001-2044 | Every deleted snapshot was created by this migration earlier in the run; a migration given a snapshot deletes none. |
| MigrationSafety.ImportCarriesRecordedExport | internal/controller/vmmigration_controller.go:708-741 | Every import request carries the URL, the format and the checksum of the one export the status records. |
| MigrationSafety.PanicsIff | internal/controller/vmmigration_controller.go:847-893 | A reconcile dereferences a missing disk record exactly in Creating, with no target VM and no record. |
| MigrationSafety.NeverPanics | internal/controller/vmmigration_controller.go:847-893 | In every reachable Creating state there is a disk record whose target disk is the import ID, so no reconcile panics. |
| MigrationSafety.WrittenOnce | internal/controller/vmmigration_controller.go:286-754 | Export, import and snapshot ID and PVC name, once stored, never change in the rest of the run. |
| MigrationSafety.FirstAttemptWaits | internal/controller/vmmigration_controller.go:479-706 | Before the first retry, Importing or later means the recorded export's task was seen complete without error, and Creating or later the same for the import. |
| MigrationSafety.RetriesAreSpaced | internal/controller/vmmigration_controller.go:1069-1149 | The retry count never falls and never exceeds the policy, and each retry after the first comes at least the computed delay after the one before. |
| MigrationSafety.RetriesWaitTheIdealDelay | internal/controller/vmmigration_controller.go:1098-1140 | For base 0 to 30 minutes, multiplier 1 to 5 and at most 10 retries that delay is min(base * multiplier^count, 30 minutes). |
| MigrationSafety.RetriesFollowPolicy | internal/controller/vmmigration_controller.go:1069-1140 | In every run there are at most maxRetries retries, by default 3 and without a policy none, and each after the first comes the delay of the policy, by default 5 minutes doubled each time, after the one before. |
| MigrationSafety.RetryWhenDue | internal/controller/vmmigration_controller.go:1069-1149 | A failed migration with retries left is retried as soon as that delay has passed; only the phase, the task and the retry count and time change. |
| MigrationSteps.StepIsExact | internal/controller/vmmigration_controller.go:190-1003 | With its writes stored a reconcile goes on to the next phase exactly if the phase's work is done, fails exactly if it cannot be, and else stays; the conditions are written out from spec, status and answers. |
| MigrationSteps.LostWriteKeeps | internal/controller/vmmigration_controller.go:1867-1912 | A reconcile whose write is lost leaves the stored status as it was, but for a PVC name stored before. |
| MigrationSteps.PvcStoredIff | internal/controller/vmmigration_controller.go:273-291 | The PVC name is stored exactly if source VM and providers are ready, the storage is usable and its PVC in place. |
| MigrationSteps.PvcCreatedIff | internal/controller/vmmigration_controller.go:1440-1525 | The PVC is created exactly if none is there, the user names none and one can be made, under the generated name. |
| MigrationSteps.TargetIsRead | internal/controller/vmmigration_controller.go:809-1003 | The target's Ready condition counts as read, and the completion marker is written, exactly if the target was found with it. |
| MigrationSteps.TargetAskedIff | internal/controller/vmmigration_controller.go:830-905 | A target VM is asked for exactly if there is none. |
| MigrationSteps.DoneIsRecorded | internal/controller/vmmigration_controller.go:343-985 | The target ID stored is the one last read, a finished transfer leaves no task, and a snapshot given or taken is recorded. |
| MigrationSteps.FormatsAreRecorded | internal/controller/vmmigration_controller.go:560-754 | In every run the formats recorded for the export and the import are the one asked for. |
| MigrationSteps.FinalizerFirst | internal/controller/vmmigration_controller.go:110-127 | In every run nothing is called and no status stored before the finalizer is stored. |
| MigrationSteps.DeletionIsFinal | internal/controller/vmmigration_controller.go:1167-1282 | From the request on no status changes; each reconcile makes the deletion calls until the finalizer is removed, and then nothing more happens. |
| MigrationCleanup.ReadyNeedsUsableStorage | internal/controller/vmmigration_controller.go:1382-1460 | A migration can become Ready if and only if its storage is a PVC that the user names or describes, written out; the PVC is the named one or is called after the migration. |
| MigrationCleanup.CallsFollowSpec | internal/controller/vmmigration_controller.go:531-905 | Every export, import, creation and deletion in every run uses the URL, format, compression, verification and names that the spec asks for, with its defaults. |
| MigrationCleanup.ExportingCalls | internal/controller/vmmigration_controller.go:524-543 | An export names the source VM's ID and the recorded snapshot. |
| MigrationCleanup.CleanupIsDone | internal/controller/vmmigration_controller.go:1006-1066 | In every run a migration stored as cleaned up has deleted its exported file, its own snapshot and, if asked for, the source VM. |
| MigrationCleanup.FavourableCleanup | internal/controller/vmmigration_controller.go:1006-1066 | One favourable reconcile of a finished migration cleans it up. |
| MigrationCleanup.DeletionRemovesIff | internal/controller/vmmigration_controller.go:1167-1282 | In every run deletion removes the file, the PVC, the snapshot and the target VM, each exactly under its own condition, written out. |
| MigrationProgress.MoveLowers | internal/controller/vmmigration_controller.go:139-187 | Every stored phase change lowers (retries left, phase rank) lexicographically. |
| MigrationProgress.ChangesArePaid | internal/controller/vmmigration_controller.go:139-187 | From any reachable state the phase changes of any continuation are bounded by the drop of the measure. |
| MigrationProgress.PhaseChangesBounded | internal/controller/vmmigration_controller.go:1069-1164 | A run from Pending changes phase at most 8 * maxRetries + 7 times, at most 7 * maxRetries + 6 times if no snapshot is taken, and 7 times without a retry policy. |
| MigrationProgress.LongestRun | internal/controller/vmmigration_controller.go:190-1164 | With usable storage both bounds are tight: from Pending some run changes phase exactly that often and ends in Ready. |
| MigrationProgress.FullRun | internal/controller/vmmigration_controller.go:84-1164 | Every migration with usable storage can be created, use up every retry with a full attempt and still reach Ready, in one phase change more. |
| MigrationProgress.ReadyAbsorbs | internal/controller/vmmigration_controller.go:1006-1066 | Ready is never left. |
| MigrationProgress.ExhaustedAbsorbs | internal/controller/vmmigration_controller.go:1069-1094 | Failed without retries left never changes its status again and calls nothing until the migration is deleted. |
| MigrationDeletion.SourceKeptIff | internal/controller/vmmigration_controller.go:946-1048 | In every run the source VM is deleted only after the target was read as Ready, if and only if source and target are different VMs. |
| MigrationDeletion.SourceDeletedEarly | internal/controller/vmmigration_controller.go:1220-1260 | A run that deletes the source VM without that when they are the same. |
| MigrationDeletion.ReadyKeepsTarget | internal/controller/vmmigration_controller.go:1041-1260 | After a stored Ready no later reconcile deletes the target VM, deletion of the migration and a lost completion marker included, if the source is another VM or is to be kept. |
| MigrationDeletion.ReadyKeepsTargetIff | internal/controller/vmmigration_controller.go:1041-1260 | The same over every run that stores Ready, if and only if the source is another VM, or is to be kept, or the migration has no usable storage and so never becomes Ready. |
| MigrationDeletion.TargetDeleted | internal/controller/vmmigration_controller.go:1041-1048 | For every other migration, a run from its creation that stores Ready and deletes the target VM in the next reconcile. |
| MigrationPvc.DeletesOnlyItsPvc | internal/controller/vmmigration_controller.go:1185-1198 | The only PVC ever deleted is the one the migration is configured to use. |
| MigrationPvc.OwnsPvcsIff | internal/controller/vmmigration_controller.go:1432-1471 | In every run each deleted PVC was created earlier in that run, if and only if the migration has no usable storage or nobody else makes a PVC of that name. |
| MigrationPvc.FoundPvcIsDeleted | internal/controller/vmmigration_controller.go:1185-1198 | For every migration with usable storage, a run that finds its PVC in place, never creates one, and deletes it. |
| MigrationPvc.UserPvcCanBeDeleted | internal/controller/vmmigration_controller.go:1442-1455 | The PVC deleted so can be the one the user named. |
| MigrationPvc.ReusedPvcCanBeDeleted | internal/controller/vmmigration_controller.go:1457-1471 | And it can be one that was already there under the generated name. |
| MigrationWaits.WaitsIff | internal/controller/vmmigration_controller.go:479-706 | In every run the migration passes Exporting only once the recorded export was seen to finish, and Importing only once the recorded import was, if and only if it cannot be retried or has no usable storage. |
| MigrationWaits.FailedTransferCounts | internal/controller/vmmigration_controller.go:1138-1149 | For every other migration, with or without a snapshot: a run whose only export, or only import, is seen to fail and which goes on after a retry as if it had succeeded. |
| MigrationWaits.NeedsStorage | internal/controller/vmmigration_controller.go:273-300 | No run of a migration without valid storage stores a PVC name or passes Exporting. |
| MigrationWaits.ReadyReachableIff | internal/controller/vmmigration_controller.go:84-1003 | Some run becomes Ready if and only if the migration has valid storage. |
| MigrationLedger.SuccessesConserved | internal/controller/vmmigration_controller.go:379-766 | In every run the successful snapshots, exports and imports are exactly the recorded one and one for each status write lost after such a call, so a snapshot is leaked only by a lost write. |
| MigrationLedger.GivenSnapshotIsUsed | internal/controller/vmmigration_controller.go:343-358 | A migration that is given a snapshot takes none. |
| MigrationLedger.WaitsOnce | internal/controller/vmmigration_controller.go:286-300 | In every run the migration waits for the mount exactly once, when it stores the PVC name. |
| MigrationLedger.FailedWaitIsSkipped | internal/controller/vmmigration_controller.go:286-300 | For every migration with usable storage, a first attempt that goes past Validating although the wait failed. |
| MigrationLedger.MountSeenIff | internal/controller/vmmigration_controller.go:286-300 | In every run the migration goes past Validating only once the PVC was seen mounted, if and only if it has no usable storage. |
| MigrationTarget.OwnsTargetIff | internal/controller/vmmigration_controller.go:809-828 | In every run a finished migration has asked for its target VM, if and only if it has no usable storage or nobody else makes a VM of that name. |
| MigrationTarget.SparesOthersIff | internal/controller/vmmigration_controller.go:1220-1260 | While annotations tell the truth, every run deletes the target VM only if this migration asked for it and has not marked it complete, if and only if the target is not itself the source that a finished migration is to delete. |
| MigrationTarget.OneVmIsDeleted | internal/controller/vmmigration_controller.go:1041-1048 | For every other migration, a run that deletes a target VM it never asked for. |
| MigrationTarget.TakenRun | internal/controller/vmmigration_controller.go:809-828 | For every migration with usable storage, a run to Ready that never asks for a target VM. |
| Backoff.RetryDelay | internal/controller/vmmigration_controller.go:1098-1118 | The multiply loop in 64-bit arithmetic yields the truncated exact product, capped at 30 minutes. |
| Backoff.NoOverflowIff | internal/controller/vmmigration_controller.go:1098-1118 | No iteration leaves 64 bits if and only if the last product fits. |
| Backoff.DelayIdealIff | internal/controller/vmmigration_controller.go:1098-1118 | The delay is min(base * multiplier^count, 30 minutes) if and only if the product fits in 64 bits or wraps to at least the cap. |
| Backoff.DelayWithinLimits | api/infra.virtrigaud.io/v1beta1/vmmigration_types.go:166-185 | Within base 0 to 30 minutes, multiplier 1 to 5 and count up to 9: no overflow, the ideal delay, monotone in the count. |
| Backoff.DefaultBaseOverflowsAtTen | internal/controller/vmmigration_controller.go:1098-1118 | Multiplier 10 on 5 minutes fits at count 7, leaves 64 bits at count 8, and gives a negative delay there. |
| Backoff.SafeRetriesIff | api/infra.virtrigaud.io/v1beta1/vmmigration_types.go:166-185 | For each multiplier 1 to 10 and count up to 10, no base of at most 30 minutes overflows if and only if the count is at most a given bound. |
| Backoff.DefaultDelayIdealIff | api/infra.virtrigaud.io/v1beta1/vmmigration_types.go:166-185 | On the default 5 minutes the delay is the ideal one for exactly the listed multipliers and counts of that range. |
| Breaker.CircuitBreaker.constructor | internal/resilience/circuitbreaker.go:84-100 | A new breaker is closed with nothing counted. |
| Breaker.CircuitBreaker.AllowCall | internal/resilience/circuitbreaker.go:122-146 | Decision and fields equal `Admit`, the admission step of `BreakerRuns`. |
| Breaker.CircuitBreaker.RecordResult | internal/resilience/circuitbreaker.go:149-158 | The fields equal `Record`, the recording step of `BreakerRuns`. |
| Breaker.CircuitBreaker.RecordFailure | internal/resilience/circuitbreaker.go:161-175 | The failure is counted and dated in every state, and opens the breaker at the threshold or when half-open. |
| Breaker.CircuitBreaker.RecordSuccess | internal/resilience/circuitbreaker.go:178-189 | A success clears the count when closed, and closes a half-open breaker that has used up its calls. |
| Breaker.CircuitBreaker.Reset | internal/resilience/circuitbreaker.go:228-232 | The breaker is closed and empty, but keeps the time of the last failure. |
| BreakerRuns.RunsAreSane | internal/resilience/circuitbreaker.go:122-189 | In every interleaving a saturated half-open breaker has its newest admitted call in flight, counters stay in range, and a closed breaker is below its threshold. |
| BreakerRuns.NeverStuckHalfOpen | internal/resilience/circuitbreaker.go:122-189 | A half-open breaker that turns calls away has its newest call unrecorded, so with nothing in flight it admits the next one. |
| BreakerRuns.SaturatedEpisodeEndsOnNextResult | internal/resilience/circuitbreaker.go:161-189 | The next recorded result, of whichever call, ends a saturated episode. |
| BreakerRuns.EpisodeCount | internal/resilience/circuitbreaker.go:129-142 | The calls admitted in a half-open episode are the counter plus the uncounted one that opened it. |
| BreakerRuns.EpisodeBound | internal/resilience/circuitbreaker.go:129-142 | In every interleaving an episode admits at most HalfOpenMaxCalls + 1 calls. |
| BreakerRuns.EpisodeBoundAttained | internal/resilience/circuitbreaker.go:129-142 | For every configuration a legal run admits exactly that many in one episode. |
| BreakerRuns.ClosesAfterExactlyOneMoreThanTheLimit | internal/resilience/circuitbreaker.go:178-211 | Without overlap the breaker closes on exactly the (HalfOpenMaxCalls + 1)-th success in a row and is half-open until then. |
| BreakerRuns.ClosedCountsTheLog | internal/resilience/circuitbreaker.go:161-204 | While closed, the counter equals the failures in the event log since the last success or Reset, stays below the threshold, and only a success or Reset closes the breaker. |
| BreakerRuns.LastFailure | internal/resilience/circuitbreaker.go:161-175 | The remembered time is that of the newest recorded failure, and an open breaker has recorded one. |
| BreakerRuns.OpenAdmitsOnlyAfterTimeout | internal/resilience/circuitbreaker.go:126-135 | An open breaker admits a call if and only if more than the reset timeout has passed since every recorded failure. |
| BreakerRuns.OpenStaysOpen | internal/resilience/circuitbreaker.go:126-135 | Without Reset, no call is admitted from the opening on as long as attempts come within the timeout of some recorded failure. |
| Policy.ResiliencePolicy.Call | internal/resilience/circuitbreaker.go:103-119 | An attempt runs the function only if the breaker admits it, and records what it returned. |
| Policy.ResiliencePolicy.Execute | internal/resilience/retry.go:67-106 | The loop over attempts, with or without a breaker that other callers change in between, equals `Attempts`. |
| Policy.ExecuteIsFaithful | internal/resilience/retry.go:67-193 | With at least one attempt allowed, and whatever other callers do to the breaker: at most that many invocations; nil if and only if the last attempt succeeded; it stops exactly on success, on a permanent error, on cancellation or when attempts run out. |
| Policy.NilMeansSuccessIff | internal/resilience/retry.go:67-106 | A nil result means that some invocation succeeded, in all surroundings, if and only if at least one attempt is allowed; with none the result is nil and nothing is invoked. |
| Policy.ExactInvocations | internal/resilience/retry.go:152-193 | Against a closed breaker holding k failures that nobody else uses, a function that always fails retryably is invoked exactly min(MaxAttempts, max(1, FailureThreshold - k)) times. |
| Policy.ExactInvocationsUnguarded | internal/resilience/retry.go:67-106 | Without a breaker, exactly MaxAttempts times. |
| Policy.RetriesWhatIsMarked | internal/providers/contracts/errors.go:74-180 | Kind and flag agree in every error the constructors make, so exactly those marked retryable are retried. |
| PolicyRuns.ExecutionIsTold | internal/resilience/retry.go:67-193 | An execution with no other callers returns what its attempts returned, invokes the function as often, and leaves the breaker as the admissions and recorded results of its attempts do, every error recorded as a failure; these events form a legal run of the breaker. |
| PolicyRuns.OneErrorCounts | internal/resilience/circuitbreaker.go:113-175 | One error of any kind adds one failure to a closed breaker and opens it exactly at the threshold. |
| VmController.VmReconciler.UpdateStatus | internal/controller/virtualmachine_controller.go:830-834 | A failed write leaves the stored status and is not reported. |
| VmController.VmReconciler.UpdateCurrentResources | internal/controller/virtualmachine_controller.go:930-949 | Records the class's resources with the VM's overrides applied. |
| VmController.VmReconciler.ReconcileVM | internal/controller/virtualmachine_controller.go:99-254 | Stored status and calls, in order, equal `Reconcile`, the step that the theorems on runs are about. |
| VmController.VmReconciler.EnsureState | internal/controller/virtualmachine_controller.go:198-254 | What is stored and called once no task is pending. |
| VmController.VmReconciler.DoCreate | internal/controller/virtualmachine_controller.go:387-447 | What each outcome of the creation stores. |
| VmController.VmReconciler.DoPower | internal/controller/virtualmachine_controller.go:450-486 | What each outcome of the power call stores. |
| VmController.VmReconciler.DoReconfigure | internal/controller/virtualmachine_controller.go:883-927 | What each outcome of the reconfiguration stores. |
| VmRuns.CreationIsConserved | internal/controller/virtualmachine_controller.go:199-446 | Successful creations are at most 1, plus one for each time the VM was described as gone, plus one for each status write lost after a creation. |
| VmRuns.OneTaskAtATime | internal/controller/virtualmachine_controller.go:153-196 | At most one of the two task references is ever stored, in every run. |
| VmRuns.MutationsWait | internal/controller/virtualmachine_controller.go:153-217 | A mutating call is the only one and the last of its reconcile, after every stored task was reported complete. |
| VmRuns.CallsAreBounded | internal/controller/virtualmachine_controller.go:199-253 | With a fixed desired state On or Off and a provider that does what it is told, any run makes at most one successful create, one power and one reconfigure call. |
| VmRuns.SettledForever | internal/controller/virtualmachine_controller.go:227-253 | Once nothing is left to do no later reconcile makes a mutating call, and each one answered favourably stores Ready=True. |
| VmRuns.Converges | internal/controller/virtualmachine_controller.go:99-254 | After three favourable reconciles nothing is left to do; after four Ready=True is stored and the VM is there, in the power state asked for, with the CPU and memory of the spec or else of the class. |
| VmRuns.ReadyIsDelivered | internal/controller/virtualmachine_controller.go:225-253 | Ready is only ever set on a VM that is there, in the power state asked for, with those resources. |
| VmRuns.ReconfigureLeftIff | internal/controller/virtualmachine_controller.go:837-864 | A reconfiguration is due exactly if the tracked CPU or memory differs from that of the spec or else of the class, and any are tracked. |
| VmRuns.PowerRequest | internal/controller/virtualmachine_controller.go:450-470 | The power operation requested is the one for the desired power state, by default on. |
| VmLaws.RecordIsTrue | internal/controller/virtualmachine_controller.go:153-217 | Calls, Describe and completed tasks are taken as what the provider answered. |
| VmLaws.NoNeedlessWait | internal/controller/virtualmachine_controller.go:153-196 | Without a task outstanding no answer about tasks matters. |
| VmLaws.IdIsTracked | internal/controller/virtualmachine_controller.go:199-446 | The ID stored is a new VM's once one was made, none once the VM was reported gone, and else unchanged. |
| VmLaws.PowerIsTracked | internal/controller/virtualmachine_controller.go:219-223 | The power state stored is the one last described. |
| VmLaws.ReadyIsWithdrawn | internal/controller/virtualmachine_controller.go:113-211 | Ready is withdrawn when dependencies, provider, Describe or a power call fail. |
| VmLaws.ReconfiguredAtOnce | internal/controller/virtualmachine_controller.go:901-926 | A reconfiguration without a task leaves the VM ready with its new resources. |
| VmLaws.StartedTaskIsFollowed | internal/controller/virtualmachine_controller.go:153-196 | A task that was started and stored is, after any further reconciles with any answers and lost writes, still stored or was reported complete. |
| VmLaws.ReportedIsDropped | internal/controller/virtualmachine_controller.go:153-196 | A task reported complete is no longer stored. |
| VmLaws.FirstTaskIsDropped | internal/controller/virtualmachine_controller.go:153-189 | Of two stored tasks the first is dropped while the second still runs, and nothing is called. |
| VmRuns.OtherPowerNeverReady | internal/controller/virtualmachine_controller.go:225-234 | While only On and Off are reported, no run with another desired power state stores Ready=True, whatever is answered and whichever writes are lost. |
| VmRuns.RefusedNeverCreated | internal/controller/virtualmachine_controller.go:397-413 | A VM whose spec names neither or both of an image and a disk is never created and never ready. |
| VmRuns.ReadyReachableIff | internal/controller/virtualmachine_controller.go:99-254 | A new VM can become ready if and only if it is to be On or Off and names exactly one of an image and a disk. |
| VmRuns.GracefulShutdownRepeats | internal/controller/virtualmachine_controller.go:225-234 | Asked for OffGraceful, every favourable reconcile requests the shutdown again, also of a VM that is off. |
| PvcStorage.AbsorbConcat | internal/storage/pvc.go:173-223 | Hashing chunk by chunk is hashing the whole. |
| PvcStorage.Copy | internal/storage/pvc.go:173-223 | The copy loop succeeds if and only if the reader ends at its end of data and every chunk is written in full; then output, count and hash are those of all delivered bytes. |
| PvcStorage.ChunksDelivered | internal/storage/pvc.go:173-223 | What is delivered are the non-empty chunks up to the first error, and the reader ends well exactly if no read breaks before the end of the data. |
| PvcStorage.CopiesIff | internal/storage/pvc.go:173-223 | A copy succeeds exactly if no read breaks before the end and each chunk's write reports no error and the whole chunk. |
| PvcStorage.PvcStorage.constructor | internal/storage/pvc.go:42-68 | Every URL resolves under the cleaned mount path as it does under the configured or default one. |
| PvcStorage.PvcStorage.Upload | internal/storage/pvc.go:107-254 | The result for every failure; success stores exactly the delivered bytes, a mismatch removes them again, a failed copy leaves a beginning of them in place of the old file, and no other file changes. |
| PvcStorage.PvcStorage.Download | internal/storage/pvc.go:257-402 | The result for every failure; success hands out exactly the stored file with its length, and with verification its checksum, which is then the expected one. |
| PvcStorage.PvcStorage.Delete | internal/storage/pvc.go:405-431 | Succeeds if and only if the path is valid and the file is absent or removable; afterwards exactly that file is gone. |
| PvcStorage.AnyChunkingUploads | internal/storage/pvc.go:173-254 | However the source is cut into chunks, an upload to a working file system reports the length and checksum of the whole source. |
| PvcStorage.UploadThenDownload | internal/storage/pvc.go:107-402 | Downloading an uploaded, untouched file and expecting its checksum never reports a mismatch, succeeds when the streams work, and returns the same bytes, count and checksum. |
| PvcStorage.UploadMeans | internal/storage/pvc.go:107-254 | What each result of an upload means: success, mismatch, invalid configuration and not found, each with its exact condition. |
| PvcStorage.DownloadMeans | internal/storage/pvc.go:257-402 | The same for a download. |
| PvcStorage.TamperingDetected | internal/storage/pvc.go:380-391 | A verified download of whatever a file holds succeeds if and only if no checksum is expected or the contents have it, and else reports a mismatch. |
| PvcStorage.UploadTamperDownload | internal/storage/pvc.go:107-402 | A file changed after its upload to bytes with another checksum is found out by the next verified download. |
| StorageUrls.PvcNameRoundTrip | internal/providers/libvirt/provider_virsh_helpers.go:11-22 | The provider reads back the PVC name of a generated URL if and only if it is not empty and has no slash. |
| StorageUrls.BuiltUrlParsesIff | internal/storage/pvc.go:502-538 | PVC storage accepts a generated URL if and only if no name in it contains two dots in a row. |
| StorageUrls.PrefixTrimmed | internal/storage/pvc.go:502-506 | The scheme goes exactly if it is there. |
| StorageUrls.SpaceTrimmed | internal/storage/pvc.go:502-503 | Exactly the spaces at both ends go. |
| StorageUrls.PathBelowMount | internal/storage/pvc.go:502-538 | Every URL that is accepted resolves to the mount's own elements followed by elements other than two dots, so to a path below the mount. |
| StorageUrls.JoinedPath | internal/storage/pvc.go:526-537 | For four plain elements these are exactly the elements that follow. |
| StorageUrls.CleanMountSamePath | internal/storage/pvc.go:42-68 | Cleaning the mount path first changes no path below it. |
| StorageUrls.DistinctMigrationsDistinctFiles | internal/controller/vmmigration_controller.go:1924-1940 | For names as Kubernetes allows them, two migrations resolve to valid paths under one mount, and to the same file if and only if they have the same namespace and name. |
| CloudInit.Merge | internal/controller/cloudinit.go:58-71 | The appending loop prints `Merged`, the document that the round trip is about. |
| CloudInit.MergeRoundTripIff | internal/controller/cloudinit.go:58-71 | Reading the document by section 5.1.1 of RFC 2046 with LF line ends gives back the parts in order, each followed by one newline, if and only if no part has a line starting with the delimiter. |
| CloudInit.DocumentRoundTripIff | internal/controller/cloudinit.go:58-71 | The same for a reader that takes the boundary from the document's own Content-Type line. |
| CloudInit.HeaderAnnounces | internal/controller/cloudinit.go:60-63 | The first line announces the boundary that sets off the parts. |
| CloudInit.PartsAreCloudConfig | internal/controller/cloudinit.go:62-66 | Every part is announced as cloud-config text in UTF-8. |
| CloudInit.MergeInjective | internal/controller/cloudinit.go:58-71 | Parts without such lines that print the same document are the same parts. |
| CloudInit.SourceIsProper | internal/controller/cloudinit.go:58-71 | The lines the source prints meet what the round trip needs of them. |
| CloudInit.ResolveUserData | internal/controller/cloudinit.go:75-102 | Error exactly when the secret lookup fails; one part is passed through; two are merged and read back under the condition of the round trip. |
| Adoption.SanitizeVMName | internal/controller/vmadoption_controller.go:473-496 | The filter loop, the trims and the cut compute `Sanitize`. |
| Adoption.SanitizeYieldsLabel | internal/controller/vmadoption_controller.go:473-496 | The result is empty or a label of section 2.1 of RFC 1123 in lower case, and empty exactly when no character folds to a letter or digit. |
| Adoption.SanitizeIdempotent | internal/controller/vmadoption_controller.go:473-496 | Labels are left as they are, so sanitizing twice is sanitizing once. |
| Adoption.EachCharacter | internal/controller/vmadoption_controller.go:473-496 | Inside a label each further character is sanitized by itself: underscore, dot and space become a hyphen, letters are lowered, digits and hyphens stay, the rest goes. |
| Adoption.Discover | internal/controller/vmadoption_controller.go:204-265 | Whatever the order of the resource list, the two loops compute `Unmanaged` of the managed set. |
| Adoption.DiscoveryIsSublist | internal/controller/vmadoption_controller.go:246-261 | Discovery takes, in order, exactly the places of the provider's list that are unmanaged and pass the filter. |
| Adoption.DiscoveredIff | internal/controller/vmadoption_controller.go:228-261 | A VM is discovered if and only if it is listed, no resource of the provider has its ID or, lacking one, its ID for a name, and each criterion of the filter that is set admits it, field by field. |
| Adoption.EmptyFilterIsNone | internal/controller/vmadoption_controller.go:516-552 | A filter with nothing set discovers what no filter does. |
| Adoption.StricterFindsLess | internal/controller/vmadoption_controller.go:536-549 | Raising a minimum or lowering a maximum only takes VMs out. |
| AdoptionRuns.AdoptionReconciler.AdoptVM | internal/controller/vmadoption_controller.go:268-393 | The resources and the result equal `Adopt`, a failed status write after the creation included. |
| AdoptionRuns.AdoptionReconciler.Reconcile | internal/controller/vmadoption_controller.go:172-183 | The adopt loop yields the resources and both counts of `Pass`, and the counts add up to the number discovered. |
| AdoptionRuns.NamesFromIds | internal/controller/vmadoption_controller.go:272-275 | A VM whose name has nothing to keep is named by its ID, so that two such VMs never clash. |
| AdoptionRuns.AdoptSucceedsIff | internal/controller/vmadoption_controller.go:283-393 | Exactly when an adoption reports success and when a resource appears. |
| AdoptionRuns.CountsAddUp | internal/controller/vmadoption_controller.go:174-183 | Every VM of a loop is counted once, as adopted or as failed. |
| AdoptionRuns.LoopFrame | internal/controller/vmadoption_controller.go:174-183 | No resource under another name is created or changed. |
| AdoptionRuns.LoopSettles | internal/controller/vmadoption_controller.go:174-183 | Whatever fails, each VM's resource stays open or done, and none is undone. |
| AdoptionRuns.LoopFinishes | internal/controller/vmadoption_controller.go:174-183 | Without failures each VM of the loop is done. |
| AdoptionRuns.FirstRecorded | internal/controller/vmadoption_controller.go:280-310 | Without failures each resource is left with the ID of the first VM of its name, or unchanged if it is held. |
| AdoptionFixpoint.ManagedAfter | internal/controller/vmadoption_controller.go:174-393 | Exactly the IDs that are managed after a loop without failures: those of resources it cannot change, and those of VMs that are first of their name with an open resource. |
| AdoptionFixpoint.UnusedNamesSuffice | internal/controller/vmadoption_controller.go:174-393 | If all adoptions succeed and the generated names are distinct and unused, rediscovery is empty. |
| AdoptionFixpoint.AdoptionConverges | internal/controller/vmadoption_controller.go:174-393 | After any number of passes with any failures, one pass without failures leaves nothing to discover, under the condition of AdoptionConvergesIff. |
| AdoptionFixpoint.AdoptionConvergesIff | internal/controller/vmadoption_controller.go:174-393 | That holds for all passes before it, if and only if the VMs first discovered have distinct names, no name is held by another resource, no VM's ID is another's name, and no VM was hidden behind a resource without an ID. |
| AdoptionFixpoint.NoAliasNeeded | internal/controller/vmadoption_controller.go:228-244 | When an ID is another VM's name: a run of two passes, the second without failures, after which a VM is left to discover. |
| AdoptionFixpoint.OnePassSufficesIff | internal/controller/vmadoption_controller.go:174-393 | For distinct IDs, one pass without failures leaves nothing to discover if and only if the discovered VMs have distinct names, no name is held by another resource, and no VM was hidden behind a resource without an ID. |
| AdoptionFixpoint.TakenNameForever | internal/controller/vmadoption_controller.go:300-306 | On any site a discovered VM whose name is held by a finished or hand-made resource is discovered again after any passes, if no listed VM can make a resource whose name is its ID. |
| AdoptionFixpoint.TakenNameHidden | internal/controller/vmadoption_controller.go:228-244 | If a discovered VM can make one, a pass that leaves that resource without an ID hides it. |
| AdoptionFixpoint.TakenNameForeverIff | internal/controller/vmadoption_controller.go:228-306 | Where no VM is hidden at first, it is discovered for ever, whatever is answered, if and only if no discovered VM can make such a resource. |
| AdoptionFixpoint.LoserForever | internal/controller/vmadoption_controller.go:174-393 | After a pass without failures the same holds of a VM that was not the first of its name. |
| AdoptionFixpoint.TakenNameCounts | internal/controller/vmadoption_controller.go:300-306 | In every loop such a VM counts as adopted if its resource can be read, and nothing is changed. |
| AdoptionFixpoint.OthersUnchangedIff | internal/controller/vmadoption_controller.go:285-298 | A pass leaves other providers' resources alone, whatever is answered, if and only if none of them is an adopted one without ID under a discovered VM's name. |
| AdoptionFixpoint.CollidingNames | internal/controller/vmadoption_controller.go:473-496 | Two VMs whose names differ in a replaced character: no failure is reported and one VM stays unmanaged. |

## Left out

- MigrationSafety.FirstAttemptWaits: stops at the first retry, because a retry drops the task reference; `MigrationWaits.WaitsIff` is the exact condition.
- MigrationController.Reconciler.HandleValidating: the polling of provider pods (waitForProvidersReady) is one answer.
- MigrationPvc.OwnsPvcsIff: identifies a PVC by its name; the cluster's own garbage collection of owned PVCs is not modelled.
- MigrationController.Reconciler.HandleCreating: the contents of the target VM's spec other than its imported disk, and annotations the user adds, are not modelled.
- PvcStorage.PvcStorage.Download: progress callbacks are not modelled.
- Policy.ResiliencePolicy.Execute: the length of each wait (calculateDelay, floating point with jitter) is not modelled; the times of the attempts are free.
- Adoption.Discover: parsing of the filter annotation and regular expressions are not modelled; a match is a function of pattern and name.
- AdoptionRuns.AdoptionReconciler.AdoptVM: the resources, disks, power state and addresses copied into the new resource and the choice of a VM class are not modelled.
- Status messages, conditions other than Ready, requeue intervals, events, metrics and logging, because nothing modelled here reads them back.
- The retry counter is unbounded in the model, not 32 bits wide; the policy bounds it.
- Stored times have full precision in the model, where the API server keeps seconds.
- Calls that panic inside the breaker, whose admission is then never recorded.
- The fixed discovery interval and the annotations that start an adoption pass.
- The deletion path of the VirtualMachine reconciler and buildCreateRequest, which only builds a request.
- The breaker registry, the policy builder and the ready-made retry configurations.
- vmsnapshot_controller.go, a smaller copy of the same task polling, and provider_controller.go.
- gRPC clients and servers, the providers themselves, qemu-img, scaffolding, the command-line tools, configuration and conformance code.
- The metadata resolver of cloud-init and the choice of a secret's key, which repeat what is modelled for user data.
- GetMetadata and the other storage queries.

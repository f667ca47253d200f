# ReactiveJob operator: a verified model

The operator keeps one batch `Job` in step with the job template of a `ReactiveJob`: whenever the
template changes it creates a new job, keeps the newest one alive with a finalizer, reports its
state, and drains all jobs before the `ReactiveJob` may disappear. This project models that
reconciler as one participant of a distributed protocol against a shared object store, and proves
what it promises over every run: any interleaving with users and other controllers, any lost
request or lost reply, and a crash after any step.

`dafny verify dfyconfig.toml` checks the whole project.

## How the model is built

- **Store** (`Cluster.dfy`). `World` is the API server's state for one key. Every request of the
  operator (`UpdateReactiveJob`, `UpdateStatus`, `CreateJob`, `UpdateJob`, `DeleteJob`) and every
  action of others (`Act`) is one atomic step. `history` (which template was stored at which
  generation) and `created` (the jobs ever created, in order) are bookkeeping.
- **Machine** (`Reconciler.dfy`). `OpStep` is one request of `Reconcile` together with the local work
  up to the next request. A request is answered, carried out with its reply lost, or lost. `Run` is
  any list of `Env`, `Op` and `Crash` events; `Safety.Reached` is the state after a run from the
  empty store.
- **Invariant** (`Invariant.dfy`). `Inv` ties the store to its history and the memory of a
  reconciliation to the store. Others keep it because every action keeps the relation `Rely`
  (`Environment.dfy`); the operator keeps it step by step (`OperatorSteps.dfy`).
- **Promises** (`Safety.dfy`, `Effects.dfy`, `Convergence.dfy`, `Deletion.dfy`, `Failures.dfy`,
  `StatusWrites.dfy`, `Wakeups.dfy`).
  `Witnesses.dfy` builds runs in which the surprising cases happen.
- **The program** (`StatusHeap.dfy`, `ObjectHeap.dfy`, `Server.dfy`, `Controller.dfy`). `Reconcile`
  with objects on the heap, shared maps, an in-place condition list, loops and the deferred status
  write, against an `ApiServer` that lets anybody interfere before every request. Each of its
  requests is proved to be the machine's next step, so all promises hold of the program.
- **Parts on their own**: status histories (`Status.dfy`), generation text (`Decimal.dfy`), the sort
  (`Sorting.dfy`), the condition scan (`JobConditions.dfy`), the informer factory
  (`InformerFactory.dfy`).

The hash of a template is a parameter `h`: any deterministic function. Annotation keys, finalizers
and messages are constructors; their texts are in comments beside them.

## What the operator may rely on

These are the rules of `Cluster.dfy`. Others may do whatever `Act` offers: submit, edit and delete
ReactiveJobs, change foreign finalizers, edit the metadata of jobs, report job conditions, delete
jobs, add jobs of their own, let time pass, and resync.

- Reads are live (main.go:76-79), and one reconciler works on the key at a time.
- `Update` and `Status().Update` succeed only at the stored resource version; every accepted write
  takes a new one. A status write leaves metadata and spec alone
  (api/v1alpha1/reactivejob_types.go:102). A main update leaves the status alone, and its reply
  refreshes the object in memory, the status included.
- An object that is being deleted gains no finalizers and disappears exactly when it has none.
  Generations grow on spec change and on deletion, and stay within int64. A foreground deletion adds
  the garbage collector's finalizer. Deleting what is already being deleted changes nothing.
- `Delete` goes by name, without preconditions, as the call in the source does.
- Others do not touch the operator's finalizer, labels or annotations; uids are fresh; a job
  condition Complete or Failed, once true, stays true.
- Nobody but the operator writes the status of a ReactiveJob, and nobody changes the spec, the name
  or the namespace of a job that exists.
- `slices.SortBy` is not part of this model. The code needs the largest generation first
  (internal/controllers/reactivejob_controller.go:124, 151, 160; README.md:40), so `Sorting.SortBy` is
  implemented with that order. Every list the operator can get has distinct generations, so any
  correct newest-first sort gives the same list (`Safety.AnySortAgrees`).
- A panic still runs the deferred status write. It is modelled (`Panicked`) and proved unreachable.

## Findings

- **A create or a strip that started before a deletion still lands after it.** So not every effective
  request shrinks what is left to clean up, and jobs may change while foreign finalizers remain.
  `Witnesses.LateCreateHappens` and `Witnesses.LateStripHappens` are runs in which it happens.
  `Deletion.BurdenGrowsExactly` says exactly when a request adds to what is left, and
  `Effects.BlockedJobsTouchedExactly` exactly when one changes a job while foreign finalizers remain.
  Deletion terminates all the same: `Deletion.DeletionIsBounded` counts the one late job in advance and
  holds from the deletion mark on.
- **The acknowledged generation can be taken back.** The reply to the finalizer write refreshes the
  status, so a reconciliation that sets the finalizer leaves the acknowledged generation as it was
  stored. `Witnesses.AcknowledgementLags` is a run, `Witnesses.AcknowledgesExactly` the exact condition.
- **Delete by name can hit a namesake.** If a listed job vanished and somebody else's job took its
  name in between, that one is marked for deletion. `Witnesses.NamesakeHit` is a run,
  `Effects.OtherJobTouchedExactly` the exact condition.
- **Scan order matters exactly when Failed and Complete are both true**
  (`JobConditions.OrderMattersExactly`).
- **The sharing of maps would change the hash** if it were taken after the maps are written;
  `Objects.SharingChangesTheHash` says exactly when. The code takes it before.

## Model

| member | source | states |
|---|---|---|
| Safety.ReachedInv | internal/controllers/reactivejob_controller.go:57-218 | the invariant holds after every run, whatever others do, whatever becomes of requests, and after crashes |
| Safety.ReadyIsTruthful | internal/controllers/reactivejob_controller.go:160-178 | Ready at the current generation, not deleting: the named job exists, carries the hash of the current template, and is complete |
| Safety.NoOrphans | internal/controllers/reactivejob_controller.go:115-120 | a job created for a ReactiveJob exists only while that ReactiveJob does and holds the operator's finalizer; its events map back to that key |
| Safety.OneJobPerGeneration | internal/controllers/reactivejob_controller.go:123-149 | generations strictly increase in creation order, lost replies and crashes included; neighbours in the log of one ReactiveJob differ in hash |
| Safety.ReachedContiguous | internal/controllers/reactivejob_controller.go:123-149 | between two jobs created for one ReactiveJob none is created for another |
| Safety.ConsecutiveJobsDiffer | internal/controllers/reactivejob_controller.go:123-142 | two jobs created for one ReactiveJob with none for it in between carry different hashes: a matching newest job never reruns |
| Safety.NewestIsProtected | README.md:40-43 | the latest created job is in the store, holds the finalizer, and has the largest generation of all that exist |
| Safety.NoLostWakeup | internal/controllers/reactivejob_controller.go:231-242 | between reconciliations, an existing ReactiveJob is always scheduled |
| Safety.ResultSchedulesOrGone | internal/controllers/reactivejob_controller.go:61-96 | a reconciliation that leaves the ReactiveJob in the store returns an error, an immediate requeue or a positive delay |
| Wakeups.EveryChangeWakes | internal/controllers/reactivejob_controller.go:220-242 | over any run, whatever changes a job of the operator, or creates, deletes or respecifies the ReactiveJob, leaves a reconciliation scheduled, through the name label of the job |
| Safety.SortNeverPanics | internal/controllers/reactivejob_controller.go:108-110 | every list the operator can get parses, and sorts strictly by generation number |
| Safety.AnySortAgrees | internal/controllers/reactivejob_controller.go:108-110 | every list the operator can get has distinct generations, and every newest-first order of it is the one the model works on |
| Safety.StoredStatusAgrees | internal/controllers/reactivejob_controller.go:77-96 | every stored status is untouched or has one Ready condition that agrees with the state |
| Safety.SpecUntouched | internal/controllers/reactivejob_controller.go:123-143 | no request, whatever its outcome, changes the stored template, generation or deletion mark, although the job shares its maps with the template in memory |
| Safety.OpKeepsLog | internal/controllers/reactivejob_controller.go:144 | jobs are created one at a time, and only by a create request that reached the server |
| Safety.RunForwards | internal/controllers/reactivejob_controller.go:75-90 | over any run from any state of the invariant: acknowledged generations never decrease nor exceed the generation, records stay, deletions are not taken back |
| Safety.ObservedGenerationNeverDecreases | internal/controllers/reactivejob_controller.go:75-90 | the same between any two points of a run from the empty store |
| Effects.OlderJobsGoLast | internal/controllers/reactivejob_controller.go:151-158 | outside deletion a job loses the finalizer only to a strip, and then a held job of larger generation with the wanted hash is in the store |
| Effects.DeletionOrder | internal/controllers/reactivejob_controller.go:113-216 | a request changes jobs only while creating or sweeping for a ReactiveJob read as alive, or when the stored one is being deleted with no foreign finalizers |
| Effects.BlockedJobsTouchedExactly | internal/controllers/reactivejob_controller.go:181-184 | while the stored ReactiveJob is deleting with foreign finalizers, a request changes jobs if and only if it reaches the server and is a create under a fresh name or an accepted strip |
| Effects.OtherJobsUntouched | internal/controllers/reactivejob_controller.go:200-212 | a job of others changes only through a delete whose listed job was replaced since |
| Effects.OtherJobTouchedExactly | internal/controllers/reactivejob_controller.go:207-211 | if and only if: a delivered delete, by that name, of a job not yet marked |
| Effects.HistoryWasStored | internal/controllers/utils.go:34-37 | every recorded template was stored at that generation in some state of the run |
| Effects.CreatedFromStoredTemplate | internal/controllers/reactivejob_controller.go:123-142 | every created job carries the hash of the template its ReactiveJob had, at some point of the run, at the generation in the annotation |
| Effects.CreatedJobIsMade | internal/controllers/reactivejob_controller.go:125-144 | over any run, the moment a job enters the log it is in the store, named after the ReactiveJob and made from the template on record at its generation |
| Effects.OpJobEffect | internal/controllers/reactivejob_controller.go:144-212 | one step creates one job, takes the finalizer off one listed and unchanged job, marks one job, or leaves all jobs alone |
| Effects.JobChangesExactly | internal/controllers/reactivejob_controller.go:151-212 | no request changes a stored job but by taking the operator's finalizer off the listed, unchanged job, or by marking the listed name for foreground deletion; all else of the job stays |
| Requests.StepEffect | internal/controllers/reactivejob_controller.go:57-218 | a step changes the store by its one request and nothing else |
| Convergence.EveryStepIsNearer | internal/controllers/reactivejob_controller.go:57-218 | every reconciliation terminates, whatever the outcomes |
| Convergence.ReconciliationExists | internal/controllers/reactivejob_controller.go:57-218 | from every idle, scheduled state there is an error-free reconciliation |
| Convergence.CleanRunIsRun | internal/controllers/reactivejob_controller.go:57-218 | an error-free reconciliation is a run, so all run properties apply to it |
| Convergence.FirstSeenReconciliation | internal/controllers/reactivejob_controller.go:92-96 | the first reconciliation only marks the ReactiveJob as new and asks for another |
| Convergence.CreatingReconciliation | internal/controllers/reactivejob_controller.go:113-149 | without a matching latest job exactly one is created: from the stored template (its body, metadata and the operator's own keys and finalizer, no more), named after the ReactiveJob; every other job and the spec stay, the finalizer is in place, the status says so, and the generation is acknowledged exactly if the finalizer was already there |
| Convergence.MatchingReconciliation | internal/controllers/reactivejob_controller.go:151-180 | with a matching latest job one reconciliation settles, changes only the status if no older job was held, reports the verdict of that job's conditions and returns its delay |
| Convergence.OneReconciliation | internal/controllers/reactivejob_controller.go:92-180 | each reconciliation gets one stage further: seen, matching, settled |
| Convergence.ThreeReconciliationsSettle | internal/controllers/reactivejob_controller.go:92-180 | after any run, three error-free reconciliations settle: job matches, only it is held, the status names it and acknowledges the generation |
| Convergence.ThreeReconciliationsExist | internal/controllers/reactivejob_controller.go:92-180 | and such three reconciliations exist after any run |
| Convergence.SettledIsAFixpoint | internal/controllers/reactivejob_controller.go:151-180 | a settled state stays settled; nothing changes but the condition's update time, and the delay is that of the job's conditions |
| Deletion.BurdenZero | internal/controllers/reactivejob_controller.go:187 | the measure is zero exactly when no job of the ReactiveJob exists |
| Deletion.OpLightens | internal/controllers/reactivejob_controller.go:200-212 | no request but a create adds to the measure, and every one that changes a job of the uid decreases it |
| Deletion.ActLightens | internal/controllers/reactivejob_controller.go:185-216 | others only add to it by giving a new finalizer to an unmarked job; releasing a finalizer or marking a job decreases it |
| Deletion.DeletionIsBounded | internal/controllers/reactivejob_controller.go:185-216 | deletion terminates: from the deletion mark on, over any run, effective steps on the jobs plus what is left never exceed the initial measure plus the one job a reconciliation in progress may still create |
| Deletion.LateCreateAdds | internal/controllers/reactivejob_controller.go:144 | a create for that ReactiveJob adds to the measure |
| Deletion.BurdenGrowsExactly | internal/controllers/reactivejob_controller.go:144 | a request adds to the measure if and only if it is a delivered create for that ReactiveJob with a fresh name |
| Deletion.DrainEnds | internal/controllers/reactivejob_controller.go:200-212 | an undisturbed drain leaves every job of the ReactiveJob marked and not held |
| Deletion.DrainVisits | internal/controllers/reactivejob_controller.go:200-212 | the drain takes the jobs in order and skips exactly those that are marked and not held |
| Deletion.DrainGoesInOrder | internal/controllers/reactivejob_controller.go:200-212 | a released job is deleted next unless it is marked, and then the job behind it is taken |
| Deletion.DeletingReconciliation | internal/controllers/reactivejob_controller.go:185-216 | error-free: at measure zero the ReactiveJob disappears; otherwise every job left is marked and released, and the status says Deleting |
| Deletion.ClearRun | internal/controllers/reactivejob_controller.go:187-198 | with no job left, clearing the finalizer lets the ReactiveJob go and nothing is returned |
| Deletion.BlockedReconciliation | internal/controllers/reactivejob_controller.go:181-184 | error-free with foreign finalizers left: no job is touched, and the stored status says DeletionBlocked |
| Witnesses.LateCreateHappens | internal/controllers/reactivejob_controller.go:113-144 | a run in which a job is created after the deletion began, with any foreign finalizers in place |
| Witnesses.LateStripHappens | internal/controllers/reactivejob_controller.go:151-158 | a run in which an older job loses the finalizer after the deletion began and while foreign finalizers remain |
| Witnesses.NamesakeHit | internal/controllers/reactivejob_controller.go:200-212 | a run in which the delete hits a job of somebody else that took the listed job's name |
| Witnesses.AcknowledgementLags | internal/controllers/reactivejob_controller.go:115-120 | a run after which an error-free reconciliation leaves the acknowledged generation behind |
| Witnesses.AcknowledgesExactly | internal/controllers/reactivejob_controller.go:75-120 | an error-free reconciliation acknowledges the generation if and only if it did not have to set the finalizer, or the generation was acknowledged before |
| Failures.FailureIsReported | internal/controllers/reactivejob_controller.go:77-90 | a reconciliation turns to an error if and only if its request is unanswered or refused, and then the status to be written says Error and names the call |
| Failures.FailureIsRetried | internal/controllers/reactivejob_controller.go:77-90 | after a failure the reconciliation ends with an error and another is scheduled, whatever becomes of the status write; the store says Error if that write is answered and the revision still holds |
| Failures.GetEndsExactly | internal/controllers/reactivejob_controller.go:62-69 | an error of the first request is returned as an error, not found as nothing, and nothing is written |
| StatusWrites.StatusDecided | internal/controllers/reactivejob_controller.go:75-216 | whenever a reconciliation turns to the status write, with any outcome of its last request: which state, message and result, and that the status differs from the one in memory in state, Ready condition and, at the end of a sweep, the job name only |
| StatusWrites.StoredStatusChanges | internal/controllers/reactivejob_controller.go:77-90 | over any run, a stored status changes only by a status write of the operator, and by one report: nothing but state, Ready condition, acknowledged generation and the current job's name |
| StatusWrites.CurrentJobIsLatest | internal/controllers/reactivejob_controller.go:160-161 | over any run, the current job's name changes only to that of the latest job created for the ReactiveJob, by a reconciliation that got to the end of its sweep |
| OperatorSteps.OpStepKeepsInv | internal/controllers/reactivejob_controller.go:57-218 | every request with every outcome keeps the invariant |
| OperatorSteps.ListKeeps | internal/controllers/reactivejob_controller.go:99-124 | any listing order leads to a decision that keeps the invariant: the head of the sorted list is the latest job |
| OperatorSteps.CreateEffect | internal/controllers/reactivejob_controller.go:125-144 | what a carried out create stores: a job made from the template on record, under a name that starts with the ReactiveJob's, with the right uid, generation, hash, finalizer and event mapping, and one line of history |
| Environment.ActRelies | main.go:76-79 | every permitted action of others keeps the relation the operator relies on |
| Environment.ActKeepsInv | main.go:76-79 | and therefore the invariant, at any moment of a reconciliation |
| Controller.Reconcile | internal/controllers/reactivejob_controller.go:57-218 | the program takes the machine's steps: without a crash it starts exactly one reconciliation, ends idle, and returns the machine's result |
| Controller.Deferred | internal/controllers/reactivejob_controller.go:79-90 | exactly one status write is made, of the object as it was, or with nothing but the failed call reported in state and Ready condition; the result stands only if no call failed and the write is answered with success |
| Controller.ScanConditions | internal/controllers/reactivejob_controller.go:160-177 | the loop computes the scan of which JobConditions proves the meaning |
| Controller.StripOlder | internal/controllers/reactivejob_controller.go:151-158 | stopping at position k, the updates that took effect are exactly those of the held jobs before k, in order, and at most the one at k; never the head |
| Controller.RemovalKeepsOrder | internal/controllers/reactivejob_controller.go:153 | what is left is the subsequence of all other finalizers, each occurrence once and in order |
| Controller.CreateDependent | internal/controllers/reactivejob_controller.go:125-148 | building through shared maps and creating is the machine's create step |
| Controller.CreateOrSweep | internal/controllers/reactivejob_controller.go:123-180 | hash comparison and both branches follow the machine |
| Controller.SweepAndReport | internal/controllers/reactivejob_controller.go:151-180 | loop, job name, scan and state follow the machine |
| Controller.DrainJobs | internal/controllers/reactivejob_controller.go:200-212 | release and delete of each job, in order, stopping at the first failure |
| Controller.Fence | internal/controllers/reactivejob_controller.go:115-120 | the finalizer write precedes every create; its reply is what the rest works on |
| Controller.Clear | internal/controllers/reactivejob_controller.go:187-198 | the finalizer is cleared and the status write skipped, or the failure is reported |
| Controller.ActOn | internal/controllers/reactivejob_controller.go:113-217 | the three-way decision follows the machine |
| Controller.ListSorted | internal/controllers/reactivejob_controller.go:99-110 | listing and sorting, in any order the server answers, never panics and follows the machine |
| Server.ApiServer.Get | internal/controllers/reactivejob_controller.go:62-69 | a new object with the stored value, not found, or an error |
| Server.ApiServer.Update | internal/controllers/reactivejob_controller.go:117 | success refreshes the whole object from the reply, status included; failure leaves it as it was, even if the write took effect |
| Server.ApiServer.UpdateDependent | internal/controllers/reactivejob_controller.go:154 | an update takes effect at most once and is logged exactly then |
| Server.ApiServer.SendStatus | internal/controllers/reactivejob_controller.go:86-89 | the reconciliation ends with the intended result if the status write was answered with success, with an error otherwise |
| JobConditions.ScanIsFirstTerminal | internal/controllers/reactivejob_controller.go:162-177 | the scan reports the first true terminal condition, with its reason and delay, or that it is waiting |
| JobConditions.VerdictIsUnique | internal/controllers/reactivejob_controller.go:162-177 | the verdict on a list of conditions (state, message, delay) is unique, and the scan computes it |
| JobConditions.OrderMattersExactly | internal/controllers/reactivejob_controller.go:165-177 | the state is independent of the condition order if and only if Failed and Complete are not both true |
| Objects.BuiltJobCarries | internal/controllers/reactivejob_controller.go:125-143 | a built job has the template's body, its labels and annotations with the operator's four keys on top and no others, its finalizers and the operator's; uid, generation and hash read back as written |
| Objects.SharingChangesTheHash | internal/controllers/reactivejob_controller.go:123-142 | with an injective hash, the template in memory hashes differently afterwards if and only if a label or annotation map was shared that did not already carry the operator's values |
| ObjectHeap.BuildDependentJob | internal/controllers/reactivejob_controller.go:125-143 | the job aliases the template's maps where they exist, and writing through them changes exactly the template in memory |
| ObjectHeap.ReactiveJobObject.DeepCopy | api/v1alpha1/zz_generated.deepcopy.go:26-33 | equal value and an entirely fresh footprint |
| ObjectHeap.ReactiveJobListObject.DeepCopy | api/v1alpha1/zz_generated.deepcopy.go:67-88 | every element equal to its original, fresh, and separate from every other element |
| StatusHeap.ConditionCell.DeepCopyInto | api/v1alpha1/zz_generated.deepcopy.go:44-54 | equal value, with time cells of its own |
| StatusHeap.StatusObject.DeepCopyInto | api/v1alpha1/zz_generated.deepcopy.go:115-124 | equal value, nil slice kept nil, all cells fresh |
| StatusHeap.ReplayOnCopy | api/v1alpha1/zz_generated.deepcopy.go:115-134 | any later calls of SetState on a copy leave the original unchanged and replay on the copy |
| StatusHeap.StatusObject.GetCondition | api/v1alpha1/reactivejob_utils.go:28-35 | the pointer to the first condition of the type, an element of the slice itself, or null if there is none |
| StatusHeap.StatusObject.SetCondition | api/v1alpha1/reactivejob_utils.go:37-52 | the in-place update computes the specified list |
| StatusHeap.StatusObject.SetState | api/v1alpha1/reactivejob_utils.go:14-26 | the in-place update computes the specified status |
| Status.SetStateAgrees | api/v1alpha1/reactivejob_utils.go:14-26 | the Ready condition is True exactly for Ready, False exactly for Error, Unknown otherwise, with the state as reason |
| Status.SetStateReports | api/v1alpha1/reactivejob_utils.go:14-52 | one call changes the state and the Ready condition and nothing else; the condition keeps its transition time exactly when its status stays |
| Status.HistoryKeepsShape | api/v1alpha1/reactivejob_utils.go:14-52 | any sequence of calls: one condition per type, the others and their order untouched, Ready agreeing with the last state |
| Status.TransitionTimeOfHistory | api/v1alpha1/reactivejob_utils.go:37-52 | the transition time is the time of the call that opened the latest run of equal status; the update time is that of the last call |
| Status.LastRunExists | api/v1alpha1/reactivejob_utils.go:37-52 | every history has such an opening call |
| Decimal.RoundTrip | internal/controllers/utils.go:16-22 | for every int64, the annotation text parses back to the number |
| Decimal.RoundTripExactly | internal/controllers/utils.go:16-22 | and for no other integer |
| Decimal.FormatIsDecimal | internal/controllers/reactivejob_controller.go:141 | the annotation text is the number's decimal digits without a leading zero, by place value; a minus sign goes before that of the absolute value |
| Decimal.AtoiExactly | internal/controllers/utils.go:16-22 | mustAtoi accepts exactly an optional sign and digits within 64 bits, and reads their place value |
| Decimal.ParsedOrderIsNumeric | internal/controllers/reactivejob_controller.go:108-110 | comparing two annotations through mustAtoi compares the generations (text order would not: Decimal.TextOrderDiffers) |
| Sorting.SortBy | internal/controllers/reactivejob_controller.go:108-110 | the loop computes the newest-first permutation |
| Sorting.SortedIsOrdered | internal/controllers/reactivejob_controller.go:108-110 | a permutation in descending generation |
| Sorting.OrderIsUnique | internal/controllers/reactivejob_controller.go:108-110 | with distinct generations there is only one such order, whatever the sort |
| InformerFactory.RunKeeps | pkg/client/informers/externalversions/factory.go:136-235 | over any interleaving of critical sections the state stays consistent and only moves forwards |
| InformerFactory.OneInformerOneLaunch | pkg/client/informers/externalversions/factory.go:136-235 | each type keeps one informer forever and is launched at most once, with it |
| InformerFactory.RunningExactly | pkg/client/informers/externalversions/factory.go:144-150 | over any run, the wait group counts exactly the informers launched whose goroutine has not ended since |
| InformerFactory.ShutdownReturnsExactly | pkg/client/informers/externalversions/factory.go:154-162 | a Shutdown that has set the flag returns if and only if every informer launched has ended |
| InformerFactory.NothingAfterShutdown | pkg/client/informers/externalversions/factory.go:136-162 | after any Shutdown has set the flag nothing is launched; after one has returned no informer runs |
| InformerFactory.StartStartsAll | pkg/client/informers/externalversions/factory.go:136-152 | a Start that is not refused leaves exactly the requested types started |
| InformerFactory.SharedInformerFactory.InformerFor | pkg/client/informers/externalversions/factory.go:213-235 | one step: the memoised informer, or a new one with the type's resync period |
| InformerFactory.SharedInformerFactory.StartWithContext | pkg/client/informers/externalversions/factory.go:136-152 | one step, for whatever order the map is walked in |
| InformerFactory.SharedInformerFactory.BeginShutdown | pkg/client/informers/externalversions/factory.go:154-157 | one step: the flag, under the lock |
| InformerFactory.SharedInformerFactory.TryEndShutdown | pkg/client/informers/externalversions/factory.go:159-162 | the wait is over exactly when no informer runs |
| InformerFactory.SharedInformerFactory.StartedInformers | pkg/client/informers/externalversions/factory.go:170-181 | exactly the informers started while the lock was held |
| InformerFactory.WaitedStays | pkg/client/informers/externalversions/factory.go:170-181 | what is waited for once the lock is released stays started, with the same informers |
| InformerFactory.SharedInformerFactory.Done | pkg/client/informers/externalversions/factory.go:146-148 | one step: an informer's goroutine leaves the wait group |
| InformerFactory.SharedInformerFactory.SyncResult | pkg/client/informers/externalversions/factory.go:183-208 | the informers waited for, each asked once at its own moment, whatever was started since: every type is reported with its answer, and the error is the context's cause exactly if one has not synced |

## Left out

- Controller.Reconcile: the machine is for one key; several active reconcilers for one key are outside the environment contract.
- Controller.Deferred: of an error's text only the call that failed is kept, not the cause that is appended to it.
- Objects.BuiltJobCarries: the pod and job specs are one opaque text, and the template's own name, namespace and generateName, which lines 130-132 of the controller overwrite, are not fields of the model.
- Convergence.SettledIsAFixpoint: time is an abstract non-decreasing clock; lengths of delays are kept only as returned numbers.
- Sorting.SortBy: works on a list of job values; the loops take a copy of each element as the range loops of the source do, and the backing array shared by a copied slice of finalizers is not modelled.
- InformerFactory.SharedInformerFactory.SyncResult: how long WaitForCacheSync blocks, and the informer's transform, tweaked list options, namespace and metrics name.
- SHA-256, JSON and hex encoding behind the hash: it is any function of the template.
- The object that a create returns: the operator reads nothing from it.
- main.go, manager and leader election, and the webhook's validation and dry run; its defaulting does nothing (internal/webhooks/reactivejob_webhook.go:49-52).
- The library behind the watches: an event that passes the predicates sets a flag at once; annotation changes of a ReactiveJob are covered by arbitrary resyncs.
- Generated clientsets, fakes, listers, scheme registration and per-type informer wrappers: thin calls into libraries.
- Logging.

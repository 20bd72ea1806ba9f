# Verified model of the entity chassis

This project models `temporal-entity`, a library that runs one long-lived workflow per resource, and
proves what the library promises about such an entity over its whole life: across every queued
command, every reconcile tick, every Continue-as-New handoff and its deletion.

`dafny verify dfyconfig.toml` checks everything. Automatic induction is switched off throughout, so
every induction is written out in a lemma body.

## How the model is built

**The entity as a transition system.** `EntitySystem` holds the state of one entity (`Sys`): the
envelope, the position of the main coroutine (`Pc`), the run's locals, the set of update handlers that
have not returned, and a history. An `Event` is one atomic section of a coroutine, or something from
outside (an update, a delete signal, the server's suggestion to continue as new, the return of a user
callback). `Next` gives the state after an enabled event, `After` the state after a sequence of them,
and `Reachable` says that some life from `Fresh` leads to a state. A life runs through any number of
handoffs. A *slot* is the position of a command in acceptance order.

**The source's own form.** `Wire.Envelope` and `EntityWorkflow.Workflow` are objects updated in place,
one method per atomic section of the loop and the handlers. Each method is proved to be the step of
`Next` with the same name and to keep `Live`, which says that some life leads to the object's state. So the
theorems about lives apply to the object, and some are drawn in the methods' own contracts: nothing is
queued or waits when a section hands off or starts the finalizer, and `HandlerWakes` returns the outcome of
its own caller's command.
`FakeCluster.Cluster`, `Reconciler.Resource`, `Sagas.Saga` and `Definitions.Definition` follow the same
pattern.

**Proof structure.** `LifeChanges` reduces every step to its effect on queue, cache, handlers and
history. `LifeInvariants` proves the inductive invariant over those effects. `LifeTheorems`,
`LifeSerial`, `LifeLabels`, `LifeDrains`, `LifeWakeups`, `LifeDeletion`, `LifeAnswers`, `LifeEviction`,
`LifeHandoff`, `RequestIds` and `ClientRetry` draw the promises from it. `LifeWitnesses` and `RetryWitnesses`
build the lives in which a promise fails. What the entity itself ends up with is read off its events alone and
compared with the model's steps: spec, state and creation (`LifeStory`), which callbacks ran and what they returned
(`LifeCallbacks`), labels (`LifeLabelValues`), admission (`LifeAdmission`) and the waits of the main coroutine
(`LifeWaits`).

**Assumptions about the runtime.** Coroutines interleave only at waits and inside user callbacks. A
validator and the handler's prefix run as one section. A timed wait reports a timeout only while its
condition is false. A wait whose condition already holds does not yield. Envelopes survive serialization
unchanged. Safety theorems hold for every interleaving at yield points, and so does the completion of a
deletion. Where scheduling matters it is a hypothesis about outside events only: in a `PatientLife` an update
arrives only once every ready handler has returned, and in a `StrictLife` updates, signals and suggestions wait
for ready handlers and for a main coroutine that could resume. Workflow tasks run every ready coroutine before
they end, so this is what a caller outside can rely on. The lives in `LifeWitnesses` break a promise although
ready handlers run first at every yield (`PromptLife`).

**One client operation.** `ClientRetry` puts the calls of an operation on a timeline of the entity's lives
(`Timeline`). Each call has a `Fate`: it was never delivered, the validator refused it, its run ended under its
handler by closing or by handing off, its handler answered, or the caller got some other error. What the call
returns follows from that fate; an answered error is the recorded text and nothing else, because the source
rebuilds it from the text. Nobody else uses the operation's fresh id, and a call is delivered only once the caller
knows the fate of the calls before it. Which calls are retried is decided by `IsCANRace`, by type or by text, as
in the source. That a real race closes its life and that every later call lands in a later one is proved, and so is
that each life lets the id through at most once as long as no answer quotes the race.

## What does not hold, and exactly when it does

* **Handoff window.** The wait before Continue-as-New does not refuse updates. An uncached update that
  arrives after the last caller was woken and before the main coroutine resumes keeps its own handler
  unfinished, and only the waiting main coroutine could finish it. From then on nothing leaves the wait,
  not even a delete signal (`UpdateInHandoffWindow`, `ArrivalHoldsHandoff`). A drain can be left if and
  only if every waiting handler finds its outcome in the cache (`DrainReleasesIffAllReady`), and under
  strict scheduling that is always so (`StrictLifeCompletes`).
* **Evicted before it is read.** The cache holds `CompletedOpsCap` outcomes, and the main coroutine can record
  more than that before any handler runs. With distinct ids an outcome can be read exactly until
  `CompletedOpsCap` more are recorded (`CachedIffAmongLast`). A marked entity that is about to reject its queue
  can still be closed if and only if every waiting caller is among the last `CompletedOpsCap` accepted, which
  for callers all still queued means at most `CompletedOpsCap` queued commands (`DeletionClosesIffQueueFits`).
  The same bound decides whether a burst of queued set-labels commands loses a caller
  (`LabelBurstLosesNobodyIffQueueFits`). One command more strands the first caller: at deletion forever
  (`OneTooManyStrandsCaller`), in normal service until its id is submitted again (`ServiceStrandsCaller`,
  `LostUntilResubmitted`). Within the bound nobody is lost (`NoWakeupLost`).
* **Duplicates of unfinished commands.** Deduplication consults completed commands only, so a duplicate
  submitted while the first is queued is executed again (`DuplicateOfPendingRunsTwice`). Over a whole life an
  id is accepted for execution at most once if and only if every resubmission the validator lets through
  arrives while its outcome is recorded and fewer than `CompletedOpsCap` new ids were inserted since
  (`ResubmissionsExecuteOnceIff`).
* **An error that quotes the race.** The client also takes an error for a race by its text, and an answered error
  carries the text its command failed with. An answered call is therefore retried if and only if that text
  contains the phrase (`AnsweredRetriedIff`). If the entity is deleted and started again between the attempts, one
  operation then executes its command five times (`RaceTextRunsFiveTimes`). Exactly the texts that contain the
  phrase allow more than one execution (`RepeatsIffRaceText`); without it there is at most one (`ExecWithStart`).
* **Stale published labels.** The flag that labels changed since they were last published is local to a
  run, so a label set by a tick and not yet published stays unpublished in the next run
  (`TickLabelLostAcrossHandoff`). A kind never has stale labels unknowingly if and only if it has no tick
  (`MirrorAlwaysOkIffNoTick`). For a kind with a tick, a life is free of them if and only if at every handoff the
  labels are as the last command or change of phase left them (`MirrorOkThroughoutIffSettled`).
* **Empty error text.** An outcome whose error text is empty reads back as success; every other outcome
  round-trips (`OutcomeRoundTrip`).
* The repository's README says the pending queue is carried across Continue-as-New, and a comment in
  `pkg/entclient/client.go` says a handoff can complete a run under an accepted update. In the code the
  queue is empty and no handler waits at every handoff (`NothingPendingAtHandoff`); a caller is left
  waiting by an ended run only when creation failed (`RaceOnlyAtCreateFailed`).

## Model

| member | source | states |
|---|---|---|
| `DedupCache.OutcomeRoundTrip` | pkg/entdefine/loop.go:352-357 | a recorded outcome is returned to the caller unchanged iff its error text is not empty |
| `DedupCache.RecordedShape` | internal/wire/wire.go:87-95 | one record keeps the cache well formed, never loses the recorded id, drops at most the oldest other, and an overwrite keeps its place |
| `DedupCache.CacheRefinesHistory` | internal/wire/wire.go:79-96 | after any history the order is duplicate-free, equals the last 100 insertions and the map's keys, and each value is the latest record of its id |
| `DedupCache.CachedIffRecent` | internal/wire/wire.go:91-95 | an id is cached iff it was recorded and fewer than 100 insertions followed its own |
| `LabelMerge.MergeComposes` | internal/wire/wire.go:113-132 | two label patches in a row equal their override |
| `LabelMerge.MergeIdempotent` | internal/wire/wire.go:113-132 | re-applying a patch changes nothing |
| `LabelMerge.MergedValue` | internal/wire/wire.go:116-128 | after a merge an empty patch value has deleted its key, another has replaced it, and all other labels stay |
| `LabelMerge.LeqIffFirstDifference` | pkg/entdefine/loop.go:348-348 | labels are sorted in byte order: a prefix first, otherwise by the first difference |
| `LabelMerge.EntriesAre` | pkg/entdefine/loop.go:344-347 | the rendering has one "k=v" keyword per label and no other |
| `LabelMerge.LabelValues` | pkg/entdefine/loop.go:343-350 | whatever order the map is visited in, the result is the sorted list of exactly the entries |
| `LabelMerge.SortedUnique` | pkg/entdefine/loop.go:348-349 | a sorted rendering is determined by its entries |
| `Wire.Envelope.constructor` | pkg/entclient/client.go:98-98 | the envelope a caller sends starts a fresh entity |
| `Wire.Envelope.RecordCompleted` | internal/wire/wire.go:79-96 | the in-place map, slice and eviction loop perform one record of the cache specification |
| `Wire.Envelope.PatchLabel` | internal/wire/wire.go:115-129 | an empty value deletes its key, another replaces it, other keys stay, and a change is reported iff there was one |
| `Wire.Envelope.MergeLabels` | internal/wire/wire.go:113-132 | whatever the iteration order, a key is there afterwards iff its patch value is not empty or, unpatched, it was there before; the result says iff the labels changed |
| `Wire.Envelope.TakeSnapshot` | internal/wire/wire.go:100-109 | queries and validators see the envelope's current values |
| `EntitySystem.AfterAppend` | pkg/entdefine/loop.go:213-308 | lives compose: a longer life is the shorter one continued |
| `EntitySystem.TurnShrinks` | pkg/entdefine/loop.go:214-308 | the loop always reaches a wait or a callback: a turn that stays in the loop has consumed a command |
| `EntitySystem.UntilYieldIsTurns` | pkg/entdefine/loop.go:214-308 | the loop between two yields is a sequence of turns of a life |
| `EntityWorkflow.Workflow.constructor` | pkg/entdefine/loop.go:19-25 | a workflow started on a fresh envelope is a fresh entity, at the start of a life |
| `EntityWorkflow.Workflow.UpsertSearchAttrs` | pkg/entdefine/loop.go:318-329 | publishes the current labels iff search attributes are on |
| `EntityWorkflow.Workflow.MirrorLabels` | pkg/entdefine/loop.go:333-339 | publishes iff labels are stale, and clears the flag |
| `EntityWorkflow.Workflow.LaunchRun` | pkg/entdefine/loop.go:162-208 | the first section of a run is the launch step: creation starts once, a later run goes straight to the loop |
| `EntityWorkflow.Workflow.InitReturned` | pkg/entdefine/loop.go:174-177 | init's return is a step of its own coroutine |
| `EntityWorkflow.Workflow.CreationResumes` | pkg/entdefine/loop.go:178-203 | ready, aborted by deletion or create_failed, after init has returned in every case, and with the state init returned |
| `EntityWorkflow.Workflow.CanWanted` | pkg/entdefine/loop.go:311-316 | Continue-as-New is due when suggested or when the forced count is reached |
| `EntityWorkflow.Workflow.TurnLoop` | pkg/entdefine/loop.go:214-283 | one iteration is the turn step: deletion, one command, handoff or wait, in that order; nothing is queued or waits when it hands off or finalizes |
| `EntityWorkflow.Workflow.RunLoop` | pkg/entdefine/loop.go:214-308 | the loop runs turns until it yields; if it hands off, nothing is queued or waits |
| `EntityWorkflow.Workflow.Dispatch` | pkg/entdefine/loop.go:244-263 | takes exactly the oldest command and starts it |
| `EntityWorkflow.Workflow.ApplyLabels` | pkg/entdefine/loop.go:247-257 | the built-in command merges, records and publishes without yielding |
| `EntityWorkflow.Workflow.ExecReturned` | pkg/entdefine/loop.go:263-270 | a returned command is recorded, counted and followed by publication |
| `EntityWorkflow.Workflow.ContinueAsNew` | pkg/entdefine/loop.go:276-283 | the next run starts on the same envelope with fresh locals |
| `EntityWorkflow.Workflow.RejectPending` | pkg/entdefine/loop.go:221-224 | the loop over the queue records one rejection per command, in order |
| `EntityWorkflow.Workflow.FailPending` | pkg/entdefine/loop.go:221-225 | deletion empties the queue into rejections |
| `EntityWorkflow.Workflow.BeginDeletion` | pkg/entdefine/loop.go:218-230 | deletion rejects, then waits for handlers unless none waits |
| `EntityWorkflow.Workflow.StartFinalize` | pkg/entdefine/loop.go:231-240 | a registered finalizer is started before anything closes; without one the entity closes as deleted |
| `EntityWorkflow.Workflow.FinalizeReturned` | pkg/entdefine/loop.go:232-240 | closes as delete_failed or deleted |
| `EntityWorkflow.Workflow.WaitResumes` | pkg/entdefine/loop.go:226-307 | each wait of the main coroutine continues with its own next section; although updates may arrive in the handoff wait, nothing is queued or waits after it |
| `EntityWorkflow.Workflow.WaitTimesOut` | pkg/entdefine/loop.go:292-298 | a tick starts only when there is neither work nor a handoff due |
| `EntityWorkflow.Workflow.TickReturned` | pkg/entdefine/loop.go:298-302 | a tick, failed or not, returns to the loop |
| `EntityWorkflow.Workflow.SetSpec` | pkg/entdefine/definition.go:48-48 | user code replaces the spec |
| `EntityWorkflow.Workflow.SetState` | pkg/entdefine/definition.go:51-51 | user code changes the state |
| `EntityWorkflow.Workflow.SetLabel` | pkg/entdefine/definition.go:68-72 | user code changes one label and marks labels stale iff they changed |
| `EntityWorkflow.Workflow.DeleteSignalled` | pkg/entdefine/loop.go:57-62 | a delete signal marks the entity |
| `EntityWorkflow.Workflow.CanSuggested` | pkg/entdefine/loop.go:312-314 | the server's suggestion makes a handoff due |
| `EntityWorkflow.Workflow.UpdateArrived` | pkg/entdefine/loop.go:118-153 | an update is refused without trace iff the entity is marked, it does not decode, is unknown, or is unremembered and the validator objects; otherwise it is served from the cache or enqueued with its handler waiting |
| `EntityWorkflow.Workflow.HandlerWakes` | pkg/entdefine/loop.go:127-133 | a handler returns the cached outcome of its request id; with a unique id that is its own command's outcome |
| `LifeChanges.StepChanges` | pkg/entdefine/loop.go:57-308 | every step of every coroutine changes queue, cache, handlers and history in one of eight ways |
| `LifeInvariants.NothingPendingWhenDrained` | pkg/entdefine/loop.go:276-283 | when the handoff drain releases, the queue is empty, although updates may have arrived in it |
| `LifeInvariants.InvAlways` | pkg/entdefine/loop.go:213-308 | ledger, cache, replies, names, positions and drains stay consistent in every life |
| `LifeTheorems.NothingLostInOrder` | pkg/entdefine/loop.go:221-270 | accepted = dispatched, then rejected, then pending, in acceptance order; outcomes are recorded in that order; only create_failed leaves entries behind |
| `LifeTheorems.LifeGrows` | pkg/entdefine/loop.go:57-62 | a delete mark is never taken back and, from then on, nothing is accepted or dispatched, across runs too |
| `LifeStory.StateIsWhatUserCodeLeft` | pkg/entdefine/loop.go:188-190 | over every life spec and state are what user code last left, init included even if it failed or was aborted, and the entity is marked iff a delete signal arrived |
| `LifeStory.CreationEndsAsInitDid` | pkg/entdefine/loop.go:162-209 | once creation is over, ready was reached iff there is no init or it returned no error; create_failed iff it failed and no delete signal had come |
| `LifeCallbacks.HooksRun` | pkg/entdefine/loop.go:165-240 | init begins first iff the kind has one; a registered finalizer has begun and returned, last of all, before an entity is deleted or delete_failed; without one neither happens |
| `LifeCallbacks.DeletionEndsAsFinalizerDid` | pkg/entdefine/loop.go:231-240 | with a finalizer an entity is delete_failed iff its life ends with the finalizer's failure, deleted iff it ends with its success |
| `LifeCallbacks.HandlersRunOnceInOrder` | pkg/entdefine/loop.go:244-270 | each dispatched user command's handler runs once, in order, and exactly what the handlers returned is recorded for them |
| `LifeAdmission.RefusedIff` | pkg/entdefine/loop.go:136-153 | an update leaves no trace iff the entity is marked, the patch does not decode, the command is unknown, or the kind's validator objects to a command not remembered |
| `LifeAdmission.AcceptedWasChecked` | pkg/entdefine/loop.go:118-153 | a command is queued only by an unremembered update of an unmarked entity that decodes or is registered and was shown to the validator, which did not object |
| `LifeAdmission.RememberedIsServed` | pkg/entdefine/loop.go:119-121 | a remembered id is answered on the spot with its remembered outcome and changes nothing else |
| `LifeWaits.HandsOffIffDue` | pkg/entdefine/loop.go:276-316 | with an empty queue and no mark the loop hands off iff this run got a suggestion or processed the forced number of commands, and goes idle otherwise |
| `LifeWaits.WaitsEndExactlyWhen` | pkg/entdefine/loop.go:178-307 | when each wait of the main coroutine ends and when a tick may fall due, read off the life's events |
| `LifeLabelValues.LabelsAreLastWritten` | internal/wire/wire.go:113-132 | over every life each label is the last value written under its key, by set-labels or by user code |
| `LifeLabelValues.NoEmptyLabelEver` | internal/wire/wire.go:116-122 | an entity started without empty label values never has or publishes one; without search attributes nothing is published |
| `LifeLabelValues.DeletedLabelIsGone` | internal/wire/wire.go:116-122 | a label last written empty is gone, also from the published ones whenever these are current |
| `LifeTheorems.EnqueuedIffNotRemembered` | pkg/entdefine/loop.go:119-126 | an admitted update is enqueued iff its id was never recorded or 100 insertions followed its latest one |
| `LifeTheorems.DispatchedAtMostOnce` | pkg/entdefine/loop.go:119-126 | a second command with an id was accepted only while the first was unfinished or after 100 later insertions |
| `LifeTheorems.RepliesWereRecorded` | pkg/entdefine/loop.go:127-133 | a waiting caller is told an outcome recorded for its request id |
| `LifeTheorems.HitsWereRecorded` | pkg/entdefine/loop.go:119-121 | a caller served from the cache is told an outcome recorded for its request id |
| `LifeTheorems.CallersAccountedFor` | pkg/entdefine/loop.go:118-134 | every accepted caller still waits or was answered, never both; at a handoff and after deletion all were answered |
| `LifeTheorems.UniqueReplyIsOwn` | pkg/entdefine/loop.go:118-134 | with a unique id the reply is the slot's own outcome, or its deletion rejection |
| `LifeTheorems.ExecutionReachesCaller` | pkg/entdefine/loop.go:263-267 | what a unique command's execution returned is what its caller receives, however long after |
| `LifeTheorems.NothingPendingAtHandoff` | pkg/entdefine/loop.go:273-283 | whenever a run continues as new the queue is empty, no handler waits, and the envelope is handed over unchanged |
| `LifeTheorems.EveryQueuedCommandIsKnown` | pkg/entdefine/loop.go:258-262 | neither the unknown-command branch nor the undecodable-patch branch is ever reached, in any chain of runs |
| `LifeTheorems.SetLabelsSucceeds` | pkg/entdefine/loop.go:247-257 | a set-labels caller with a unique id is told success, or that the entity is being deleted |
| `LifeSerial.SideEffectsNeverOverlap` | pkg/entdefine/loop.go:211-213 | in the whole callback log of a life every callback ends before the next begins; init only first, the finalizer at most once and last |
| `LifeSerial.CallbacksStartInPhase` | pkg/entdefine/loop.go:162-302 | commands and ticks start only when ready and unmarked, the finalizer only when marked with nothing queued or waiting |
| `LifeSerial.PhasesFollowLifecycle` | pkg/entity/state.go:3-15 | every phase ever written follows the lifecycle's arrows, and the three final phases are exactly the closed states |
| `LifeLabels.MirrorInFirstRun` | pkg/entdefine/loop.go:333-339 | throughout a first run published labels are current or known stale |
| `LifeLabels.MirrorWithinRun` | pkg/entdefine/loop.go:247-269 | the same from any state inside any run, until its handoff |
| `LifeLabels.MirrorCurrentAfterCommand` | pkg/entdefine/loop.go:247-269 | after a processed command the published labels are current iff they were before, or were known stale, or the command changed them |
| `LifeLabels.MirrorCurrentWithoutTick` | pkg/entdefine/loop.go:331-339 | without a tick the published labels are current in every reachable state outside a command handler, across all handoffs |
| `LifeLabels.MirrorAlwaysOkIffNoTick` | pkg/entdefine/loop.go:276-302 | a kind's published labels are current or known stale in every reachable state iff it has no tick |
| `LifeLabels.MirrorOkThroughoutIffSettled` | pkg/entdefine/loop.go:247-302 | in a life they are so throughout iff at every handoff no tick has changed labels since the last command or change of phase |
| `LifeLabels.TickLabelLostAcrossHandoff` | pkg/entdefine/loop.go:298-302 | every kind with a tick has a life in which a tick's label is not published after a handoff |
| `LifeDrains.StrandedForever` | pkg/entdefine/loop.go:226-230 | a handler whose outcome is not cached holds its drain through every later step |
| `LifeDrains.DrainReleasesIffAllReady` | pkg/entdefine/loop.go:226-283 | a drain can be left iff every waiting handler finds its outcome |
| `LifeDrains.DrainCountsDown` | pkg/entdefine/loop.go:276-283 | without an uncached arrival each wake-up leaves one handler fewer, and after the last the loop can resume |
| `LifeDrains.ArrivalHoldsHandoff` | pkg/entdefine/loop.go:277-281 | after an uncached arrival in the handoff drain no step leaves it |
| `LifeWakeups.NoWakeupLost` | pkg/entdefine/loop.go:127-133 | with at most 100 commands queued or executing and updates only once ready handlers have returned, each waiting handler's command is unfinished or its outcome cached, however else the coroutines interleave |
| `LifeWakeups.FirstSurvivesIffWithinCap` | internal/wire/wire.go:87-95 | the oldest of a burst of fresh ids survives it iff the burst is within the cap |
| `LifeEviction.CachedIffAmongLast` | internal/wire/wire.go:87-95 | with distinct ids, a slot's outcome is cached iff it is recorded and at most 100 records start with it |
| `LifeEviction.NobodyLostIff` | pkg/entdefine/loop.go:127-133 | with distinct ids, no caller is lost iff every waiting one is among the last 100 recorded |
| `LifeEviction.DeletionClosesIffQueueFits` | pkg/entdefine/loop.go:218-241 | a marked entity about to reject its queue can be closed iff every waiting caller is among the last 100 accepted; if none is ready or lost, iff at most 100 are queued |
| `LifeEviction.LabelBurstLosesNobodyIffQueueFits` | pkg/entdefine/loop.go:244-257 | the same bound decides whether a burst of queued set-labels commands loses a caller |
| `LifeEviction.LostUntilResubmitted` | pkg/entdefine/loop.go:118-134 | a caller whose outcome was evicted unread waits through everything but a new submission of its id, and until then the entity never hands off, finalizes or closes |
| `LifeWitnesses.OneTooManyStrandsCaller` | pkg/entdefine/loop.go:221-230 | 101 queued commands at deletion leave the first caller waiting and the entity undeleted forever |
| `LifeWitnesses.ServiceStrandsCaller` | pkg/entdefine/loop.go:244-257 | 101 set-labels commands queued behind init strand the first caller without any deletion, and with it every later handoff and deletion |
| `LifeWitnesses.UpdateInHandoffWindow` | pkg/entdefine/loop.go:276-283 | a life with ready handlers always first and never more than one command queued or executing that ends held in the handoff drain forever |
| `LifeWitnesses.DuplicateOfPendingRunsTwice` | pkg/entdefine/loop.go:78-85 | a duplicate of a queued command is executed again |
| `LifeDeletion.DeletionCompletes` | pkg/entdefine/loop.go:215-241 | from a marked, deletable state every life, however scheduled, has a bounded number of progress steps left, always one enabled until closed, and closes as deleted or delete_failed |
| `LifeDeletion.DrainClosesIffAllReady` | pkg/entdefine/loop.go:226-241 | a marked entity in a drain can be closed iff every waiting handler finds its outcome |
| `LifeDeletion.PatientLifeDeletable` | pkg/entdefine/loop.go:215-230 | every patient life within the cap that is marked outside the handoff window is deletable |
| `LifeDeletion.StrictLifeCompletes` | pkg/entdefine/loop.go:215-283 | if outside events come only once everything ready has run, every drain can be left and every delete completes |
| `LifeAnswers.QuietLifeAnswersAll` | pkg/entdefine/loop.go:118-308 | in service, once nothing more arrives and no tick falls due, boundedly many steps remain and when none is left every caller ever accepted has been answered, unless creation failed |
| `LifeAnswers.StrictLifeIsCalm` | pkg/entdefine/loop.go:213-308 | every unmarked strict life within the cap satisfies that theorem's hypothesis |
| `LifeHandoff.EndlessLifeIsOneRun` | pkg/entdefine/loop.go:311-316 | a life without suggestions and forced handoffs stays in one run and never drains for a handoff |
| `LifeHandoff.ChainOfRunsIsOneRun` | pkg/entdefine/loop.go:213-283 | any chain of runs is matched by a life that is one single run, fed the same outside events, ending with the same envelope, callers and history |
| `ClientRetry.WithCANRetry` | pkg/entclient/client.go:172-185 | at most five calls, each but the last a race with no cancelled pause after it, and the last one decides the result |
| `ClientRetry.RaceIffTypeOrPhrase` | pkg/entclient/client.go:187-193 | an error counts as a race iff it has the race's type or its text contains the phrase anywhere |
| `ClientRetry.RaceOnlyAtCreateFailed` | pkg/entdefine/loop.go:199-202 | a run that ended, closed or handed off, leaves a handler waiting only at create_failed, where nothing was ever dispatched |
| `ClientRetry.OneAdmissionOneDispatch` | pkg/entdefine/loop.go:118-126 | an id let through at most once in a life is dispatched at most that often, and never if its run ended under its handler |
| `ClientRetry.AnswerWasRecorded` | pkg/entdefine/loop.go:118-134 | whatever a handler answers, from the cache or after waiting, was recorded for its id in its own life |
| `ClientRetry.AnsweredRetriedIff` | pkg/entclient/client.go:187-193 | an answered call is taken for a race iff its recorded error text contains the phrase |
| `ClientRetry.SuccessIsAnExecution` | pkg/entclient/client.go:151-164 | a call without error returns the result of a dispatched execution of its own id |
| `ClientRetry.OperationDispatchesOnce` | pkg/entclient/client.go:172-193 | over all lives of the entity one operation's id is dispatched at most once unless an outcome recorded for it contains the phrase; after a real race every later call lands in a later life |
| `ClientRetry.ExecWithStart` | pkg/entclient/client.go:198-227 | on any timeline of lives, one operation makes at most five calls; without error its result is that of an execution of its id; unless the phrase was recorded it causes at most one execution, exactly one if it returns no error |
| `RetryWitnesses.RaceTextRunsFiveTimes` | pkg/entclient/client.go:172-193 | for every error text containing the phrase, lives in which one operation executes its command five times |
| `RetryWitnesses.RepeatsIffRaceText` | pkg/entclient/client.go:187-193 | an operation that only ever fails with a given text can execute more than once iff the text contains the phrase |
| `RequestIds.OneOutcomeForAll` | pkg/entclient/client.go:139-165 | every caller that used an id accepted once is told the outcome of its one execution |
| `RequestIds.ResubmissionsExecuteOnceIff` | pkg/entclient/client.go:139-165 | over a whole life an explicit id is accepted at most once iff every resubmission arrives while remembered; cached replies then agree |
| `Definitions.NoErrorsIff` | pkg/entdefine/definition.go:219-232 | registration is clean iff the kind is named and all names are unreserved and distinct |
| `Definitions.ChainIsFirstComplaint` | pkg/entdefine/definition.go:195-211 | chained validators answer with the first complaint in order of attachment |
| `Definitions.CommandRegistration.Validate` | pkg/entdefine/definition.go:195-211 | attaches to its own command, and to nothing when the registration is dead |
| `Definitions.Definition.constructor` | pkg/entdefine/definition.go:146-159 | a new definition has registered nothing and complains about an empty kind |
| `Definitions.Definition.Handle` | pkg/entdefine/definition.go:219-276 | registers a fresh unreserved name, or records why not and leaves the commands alone |
| `Definitions.Definition.HandleQuery` | pkg/entdefine/definition.go:282-318 | the same for queries, without touching commands |
| `Definitions.Definition.Register` | pkg/entdefine/definition.go:322-328 | succeeds iff every attempt was clean, and never hands the loop a name that shadows set-labels |
| `Sagas.Saga.Step` | pkg/entdefine/saga.go:35-38 | appends a step |
| `Sagas.Saga.Run` | pkg/entdefine/saga.go:44-65 | the forward prefix, then the compensations of the completed steps in reverse, with world, errors and trace as `Ran` gives them (see `RunTrace`, `RunReportsItsTrace`) |
| `Sagas.Saga.Compensate` | pkg/entdefine/saga.go:50-59 | the backward loop unwinds every completed step, past failing compensations |
| `Sagas.UndoneInReverse` | pkg/entdefine/saga.go:50-59 | exactly the completed steps with a compensation are undone, once each, latest first |
| `Sagas.FailedSagaRestores` | pkg/entdefine/saga.go:40-43 | if the failing step changes nothing and each completed step is undone, a run ends in the world it started in and reports the failing step alone |
| `Sagas.RunTrace` | pkg/entdefine/saga.go:44-65 | a run performs the forward actions up to the first failure, then exactly the compensations of the steps before it, latest first |
| `Sagas.RunReportsItsTrace` | pkg/entdefine/saga.go:48-60 | its world is the one performing the trace leaves, and its errors are one for each failing entry and no other, in trace order, each naming its step |
| `FakeCluster.Cluster.Apply` | examples/reconciler/k8slib/fake/fake.go:61-69 | an upsert unless a failure is injected |
| `FakeCluster.Cluster.Get` | examples/reconciler/k8slib/fake/fake.go:72-83 | shows, and keeps, the next converged state |
| `FakeCluster.Cluster.Delete` | examples/reconciler/k8slib/fake/fake.go:86-94 | removes, tolerating absence, unless a failure is injected |
| `FakeCluster.Cluster.Corrupt` | examples/reconciler/k8slib/fake/fake.go:98-104 | overwrites a live object only |
| `FakeCluster.Cluster.Vanish` | examples/reconciler/k8slib/fake/fake.go:107-111 | removes an object behind the entity's back |
| `Reconciler.SettlesIffReadyInTime` | examples/reconciler/k8slib/k8slib.go:263-283 | for any readiness predicate and cluster, polling succeeds iff one of the allowed looks is ready |
| `Reconciler.ApplyReports` | examples/reconciler/k8slib/k8slib.go:247-284 | for any kind: the cluster's refusal, or success iff an allowed look is ready, with the ready object seen and stored; without a predicate the first look suffices |
| `Reconciler.TickReports` | examples/reconciler/k8slib/k8slib.go:288-331 | for any kind: a tick heals iff the object is gone or differs, by predicate or digest; a failed heal is reported and counts nothing, a heal counts once |
| `Reconciler.ApplyAndWaitReady` | examples/reconciler/k8slib/k8slib.go:247-284 | the poll loop stops at the first ready look and reports exactly what it saw |
| `Reconciler.Resource.ApplyCommand` | examples/reconciler/k8slib/k8slib.go:190-198 | the spec is replaced in any case, the state only on success, which reports the digest of the desired object and ready |
| `Reconciler.Resource.ReconcileDrift` | examples/reconciler/k8slib/k8slib.go:288-331 | the tick observes, compares and heals, and does nothing outside the ready phase |
| `Reconciler.DeleteAndWaitGone` | examples/reconciler/k8slib/k8slib.go:333-352 | whatever others do to the key between looks, succeeds iff the delete went through and one of the allowed looks finds nothing; left alone, iff it may look at all; other keys are untouched |
| `Reconciler.DeploymentConverges` | examples/reconciler/main.go:94-96 | with one replica started per look, apply succeeds iff accepted and allowed at least max(1, missing replicas) looks, and then all replicas are ready |
| `Reconciler.TickHealsOnce` | examples/reconciler/k8slib/k8slib.go:288-331 | after any corruptions and disappearances a tick succeeds iff it saw no drift or can re-apply, restores image and replicas, counts one heal iff it saw drift, and the next tick heals nothing |

## Left out

- The Temporal SDK and server: replay, timers, history limits, workflow cancellation and termination, and worker redeploys that change a definition mid-run.
- Waits that fail because the workflow's context is cancelled: only the normal continuation of each wait is modelled.
- JSON encoding and reflection: payloads and results are text, specs and states are opaque, decoding of a label patch is a function of the kind.
- Nil versus empty maps and slices: both are empty, which no modelled read distinguishes.
- `Describe`, `Read`, `Commands`, `Queries`, the note signal and the operator client: they read state or change nothing.
- Id checks, workflow id concatenation and start options: easy members that would add little.
- User callbacks: arbitrary sequences of spec, state and label changes followed by an arbitrary return; their own activities are not modelled.
- Cluster calls as activities: each is one atomic call without retries, and the two poll loops of apply and heal run without interference; only the delete loop admits other writers.
- `Corrupt` and `Vanish` schedules inside a poll loop: faults happen between ticks.
- How the SDK renders an answered error: the caller's error text is the recorded text, without the type suffix the SDK adds.
- Failure injection of the fake cluster has no row: its two methods set or clear one key's failure and nothing more.
- Sleeps and real time: attempts are counted, durations are not.

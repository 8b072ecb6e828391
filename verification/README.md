# Verified model of the embewi Core controllers

embewi Core is a Kubernetes controller that pushes firmware to microcontrollers over links that lose messages. Its state
lives in API objects that several writers patch at the same time. This project models the five protocols of the Core and
proves what they keep over every run:

- **Firmware transfer** (`BlobReader`, `OtaTransfer`, `TransferTrace`, `WritingPhase`, `Rollout`): 64 KiB `Content-Range` requests, three
  attempts per range, resynchronisation on 416, and the digest check of the streamed blob.
- **Deployments** (`Conditions`, `NodeTypes`, `DeploymentStep`, `DeploymentController`, `DeploymentSafety`,
  `DeploymentRuns`, `DeploymentConditions`, `ConfirmTimer`, `Staging`, `DeploymentProgress`, `DeploymentExactly`,
  `Activation`, `ActivationGaps`, `Preparation`): the phase machine over any number of deployments and nodes, with patches that fail and users who
  create, edit and delete.
- **Node status** (`NodeStep`, `NodeRuns`, `NodeApi`, `NodeFields`, `HeartbeatServer`, `Confirmation`): heartbeats, the node reconciler
  and plain patches racing on one object, with optimistic locks, stale reads and field-wise merge patches.
- **Token rotation** (`TokenRotation`): Secret, cache, device, reconciler and heartbeat server with lost, late and
  repeated messages.
- **Configuration, effects and metrics** (`ConfigSync`, `ConfigRollout`, `DeviceEffects`, `Metrics`, `MetricsRaces`),
  and image references (`OciReference`).

Each protocol has the same build. The code's decisions are functions of the stored state and of everything outside the
Core (answers, message fates, whether a patch lands). The imperative code is classes and methods with the source's loops
and in-place updates, whose contracts equate the new state with those functions. The theorems are lemmas over all inputs,
all fates and all runs; the modules and lemmas called "Exactly" spell the behaviour of each operation out a second time,
independently of those functions. A crash is an answer that never comes or a patch that does not land.

`dafny verify dfyconfig.toml` checks the project. Larger lemmas hide the definitions they do not use.

## Assumptions

- Each controller has one worker and its reads see its own earlier writes (no concurrency option is set in
  `SetupWithManager`). `DeploymentProgress.StaleListBindsTwice` shows that binding needs it.
- Deployment status, and the confirming-since annotation after creation, are written only by the deployment controller;
  UIDs are never reused; a device reports as staged only what a deployment staged on it, or nothing.
- The device handles one request of a transfer at a time, answers 200 only after storing the whole body, opens a session
  at offset 0, continues one only at its own position, and otherwise answers 416 with that position
  (docs/core/agent-api.md:153-161).
- After answering `digest_mismatch` a device keeps its session open at its position. Only the three results about a lost
  verdict (`OtaTransfer.VerdictCanBeLost` and the only-if halves of `OtaTransfer.SuccessMeansStagedExactlyWhen` and
  `WritingPhase.GateHoldsExactlyWhen`) need it: a device that drops the session would answer 416 with position 0, which
  the client refuses. `OtaTransfer.TransferSafe` does not.
- The operator rotates a token in one write, to a token never used before, with no rotation open. The node reconciler and
  the heartbeat server read the Secret from one cache (`mgr.GetClient()`, cmd/controller/main.go:91-115), which serves its
  versions in order and may lag behind by any number of them. When it is safe to start a rotation is derived, not
  assumed (`TokenRotation.RotationIsSafeExactlyWhen`).
- Node objects are read through the same cache: every read of a writer in `NodeRuns` and `NodeApi` may be stale.

## Where the code differs from what its documents or comments promise

- `OTAWrite` returning nil does not mean that the device accepted the digest: a lost `digest_mismatch` reply is followed
  by a 416 that counts as success. Exact condition: `OtaTransfer.SuccessMeansStagedExactlyWhen`.
- The digest check after the write is conclusive only if end-of-file arrives together with the last wanted byte. Exact
  condition: `WritingPhase.GateHoldsExactlyWhen`. A declared size of 0 sends nothing and still advances
  (`WritingPhase.EmptySizeAdvances`).
- The resume branches of Preparing (`staged=written`, `staged=activating`) never fire in any run, because a deployment
  in Preparing has not written yet (`Staging.PreparingSeesNoOwnSlot`).
- `clock_unsynced` is documented as never ready; the next node reconcile sets Status.Ready all the same, while the Ready
  condition stays False (`NodeRuns.ClockUnsyncedTurnsReadyExactlyWhen`).
- The clear of `previousToken` carries no version: a stale one can erase a newer `previousToken` and lock the device out
  for good (`TokenRotation.StrandedForGood`). It can come from a handler still in flight, or from one that is served the
  last rotation's Secret by the cache. Exact condition: `TokenRotation.RotationIsSafeExactlyWhen`.
- Activating takes any `pending_verify` for its own and then reaches Confirming without an activation
  (`ActivationGaps.SkippingIsReachable`). Exact condition: `Activation.RunActivatesExactlyWhen`.
- A device that forgets its staged slot after the activation is activated again (`ActivationGaps.RepeatingIsReachable`).
  Exact condition: `Activation.RunActivatesOnceExactlyWhen`.
- Gauges are written after the mutex is released, so a call that is overtaken leaves a series behind; if its node was
  removed meanwhile it stays until another call for that node (`MetricsRaces.LeftoverStays`). Exact condition: `MetricsRaces.RunAgreesExactlyWhen`.
- A key the device ignores silently makes every later reconcile push and reboot again
  (`ConfigSync.UnknownKeyNeverSettles`).
- A confirming-since annotation that does not parse never times out (`ConfirmTimer.LeavesConfirmingExactlyWhen`).
- docs/core/agent-api.md shows other field names for GET /config than the code reads; the code is followed. The heartbeat
  timeout is the 10 s of the code, and Deployed blocks a node.

## Model

Rows that begin with "step" state one branch of the code for the results that use them.

| member | source | states |
|---|---|---|
| BlobReader.AbsorbAppend | internal/oci/client.go:220-225 | hashing piece by piece is hashing the concatenation, for every cut |
| BlobReader.SumNamesItsHash | internal/oci/client.go:227-228 | a computed digest begins with sha256: |
| BlobReader.ReadOnce | internal/oci/client.go:220-233 | one read delivers the next bytes of the source and nothing else; end-of-file comes with the last bytes or alone, as the source ends |
| BlobReader.BlobStream.Read | internal/oci/client.go:220-234 | the incremental hash is the hash of every byte read, and the mismatch flag is set exactly when end-of-file was seen and that hash is not the wanted digest |
| BlobReader.BlobStream.Err | internal/oci/client.go:236-241 | non-nil if and only if end-of-file was reported and the bytes read do not hash to the wanted digest |
| BlobReader.ReadFull | internal/agent/client.go:233-235 | succeeds exactly when enough bytes are left, whatever the fragmentation; end-of-file is seen exactly when the source is used up and ends with its last bytes |
| OtaTransfer.Link.Do | internal/agent/client.go:252-267 | one request meets the device and its fate, and is logged |
| OtaTransfer.PutOtaChunk | internal/agent/client.go:247-307 | the attempt loop, with its reused buffer and resume offset, is the function ChunkRun |
| OtaTransfer.OtaWrite | internal/agent/client.go:224-242 | the range loop, in wrapping 64-bit arithmetic, is the function TransferRun; it reads exactly the first size bytes once, and sees end-of-file under the stated condition |
| OtaTransfer.RangeEndInInt64 | internal/agent/client.go:228-231 | the range end is right for every int64 size although the intermediate sum may wrap |
| OtaTransfer.ExchangeHolds | docs/core/agent-api.md:153-161 | under every fate of a request the device's open session stays a prefix of the firmware with a right verdict, and a request at 0 is never answered 416 |
| OtaTransfer.ChunkSafe | internal/agent/client.go:247-307 | a confirmed range is on the device byte for byte; every request of the range carries exactly the bytes its Content-Range names |
| OtaTransfer.OffsetsNeverGoBack | internal/agent/client.go:290-299 | inside a range the offset starts at its beginning, never decreases and never passes its end |
| OtaTransfer.RangesTile | internal/agent/client.go:226-240 | the ranges are consecutive, at most 64 KiB each, from 0 to the last byte |
| OtaTransfer.TilesCover | internal/agent/client.go:226-240 | such a tiling leaves out no byte |
| OtaTransfer.RangeCountIsCeiling | internal/agent/client.go:227-239 | there are ceil(size/65536) ranges |
| OtaTransfer.TransferSafe | internal/agent/client.go:224-307 | for every pattern of lost requests, lost replies, cut bodies, refusals and session resets: success with size > 0 means the device holds exactly the first size bytes, staged if and only if they hash to the announced digest |
| OtaTransfer.RequestsAreExact | internal/agent/client.go:227-258 | every request of a transfer lies in one 64 KiB window and carries exactly the firmware bytes of its range |
| OtaTransfer.RequestsAreBounded | internal/agent/client.go:209-213 | at most three requests per range; none for size <= 0; a read error only if the source is too short |
| OtaTransfer.CleanRange | internal/agent/client.go:268-279 | one undisturbed request at the device's position confirms the rest of a range |
| OtaTransfer.Resync | internal/agent/client.go:285-299 | when the device is ahead, one 416 and at most one more request finish the range |
| OtaTransfer.ChunkSurvives | internal/agent/client.go:206-222 | three attempts absorb any single network fault in a range |
| OtaTransfer.TransferSurvives | internal/agent/client.go:215-242 | if at most one request in three is hit by the network, a matching firmware is always written |
| OtaTransfer.FirstRangeVerdict | internal/agent/client.go:268-279 | firmware of one range is confirmed only by the device's own digest verdict |
| OtaTransfer.VerdictCanBeLost | internal/agent/client.go:285-297 | for firmware of more than one range, losing the last reply turns any verdict into success |
| OtaTransfer.SuccessMeansStagedExactlyWhen | internal/agent/client.go:244-307 | success always means staged if and only if the firmware is one range or its digest is right |
| TransferTrace.RangeTrace | internal/agent/client.go:247-307 | one range on the wire: each request is the one its predecessor's answer calls for, no request follows a confirmation or a refusal, and the last answer decides the result |
| TransferTrace.TransferTrace | internal/agent/client.go:224-307 | the same for whole transfers under every fault pattern: first and following requests, the result for each last answer, and which source is too short |
| TransferTrace.ThreeAttemptsPerRange | internal/agent/client.go:209-213 | at most 3 requests per 65536 bytes, and a range is abandoned only after three requests of that range |
| TransferTrace.RefusalEndsTransfer | internal/agent/client.go:269-303 | a 500, another HTTP status, an accepted but failed write or an unreadable reply ends the transfer at once, with the error that names it |
| TransferTrace.CleanTransferExactly | internal/agent/client.go:224-284 | on an undisturbed link every range is sent once, at multiples of 65536; the result is success if and only if the firmware has the announced digest, else the refusal digest_mismatch |
| WritingPhase.PhaseWriting | internal/controller/mcudeployment_controller.go:417-460 | advances exactly when the transfer succeeds and no mismatch was detected; then the device holds exactly the bytes |
| WritingPhase.GateHoldsExactlyWhen | internal/controller/mcudeployment_controller.go:423-455 | no fault lets wrong bytes advance if and only if end-of-file comes with the last byte, or one range suffices, or the digest is right |
| WritingPhase.GoodFirmwareAdvances | internal/controller/mcudeployment_controller.go:423-460 | firmware with the right digest advances whenever at most one request in three is hit |
| WritingPhase.CleanAdvancesExactly | internal/controller/mcudeployment_controller.go:423-460 | on an undisturbed link the phase advances exactly when the bytes hash to the digest |
| WritingPhase.EmptySizeAdvances | internal/agent/client.go:227-241 | step: a size <= 0 sends nothing, checks nothing, and advances |
| Rollout.ActivatesExactBytes | internal/controller/mcudeployment_controller.go:423-460 | a deployment leaves Writing only with exactly Status.Size bytes of the blob on the device, hashing to Status.Digest when the check is conclusive |
| Rollout.WritingLeavesExactlyWhen | internal/controller/mcudeployment_controller.go:411-461 | step: Writing moves on exactly when client, stream, write, digest check and patch all succeed |
| OciReference.ParseUndoesFormat | internal/oci/client.go:268-283 | parsing registry/repo:tag returns the three parts, also when the repository holds slashes and colons |
| OciReference.UntaggedMeansLatest | internal/oci/client.go:276-280 | without a colon after the registry the tag is latest |
| OciReference.RejectsExactly | internal/oci/client.go:269-272 | a reference is rejected exactly when it has no slash |
| OciReference.ParseIsExact | internal/oci/client.go:268-283 | whatever parses is the image cut at its first slash and last colon |
| OciReference.ResolveFirmware | internal/oci/client.go:113-165 | the first layer of the firmware type, else the first layer, else an error; its digest, size and annotations; with a trusted key it succeeds exactly when the manifest carries a signature that verifies against the digest of that layer |
| Conditions.SetStatusCondition | internal/controller/mcudeployment_controller.go:611-622 | replaces the entry of its type in place or appends it |
| Conditions.FindStatusCondition | internal/controller/mcudeployment_controller.go:635-636 | finds the entry of a type |
| Conditions.FirstOfKind | internal/controller/mcudeployment_controller.go:611-622 | the first entry of a type is the one found and the one replaced |
| Conditions.FindWith | internal/controller/mcudeployment_controller.go:634-654 | setting a condition changes what is found for its type and for no other |
| Conditions.WithKeepsOnePerKind | internal/controller/mcudeployment_controller.go:657-694 | a list with one entry per type keeps one per type |
| DeploymentController.DepObject.SetReadyCondition | internal/controller/mcudeployment_controller.go:631-654 | derives Ready from Progressing and Available |
| DeploymentController.DepObject.SetDeploymentConditions | internal/controller/mcudeployment_controller.go:656-694 | the conditions of each phase, then Ready |
| DeploymentController.MatchesSelector | internal/controller/mcudeployment_controller.go:132-138 | true exactly when every label of the selector has its value, a missing label counting as empty, in any map order |
| DeploymentController.CandidateNodes | internal/controller/mcudeployment_controller.go:125-143 | keeps, in order, exactly the nodes that the name or the selector selects |
| DeploymentController.Controller.CheckNotBusy | internal/controller/mcudeployment_controller.go:160-179 | true exactly when another deployment of the namespace is bound to the node and has not failed |
| DeploymentController.Controller.SetPhase | internal/controller/mcudeployment_controller.go:578-605 | stamps once on entering Confirming in a patch of its own, then patches the status; each may fail |
| DeploymentController.Controller.Fail | internal/controller/mcudeployment_controller.go:607-629 | stores Failed with its reason and conditions, if the patch lands |
| DeploymentController.Controller.PhaseBinding | internal/controller/mcudeployment_controller.go:117-158 | the binding step |
| DeploymentController.Controller.PhasePulling | internal/controller/mcudeployment_controller.go:183-210 | the pulling step |
| DeploymentController.Controller.PhasePreparing | internal/controller/mcudeployment_controller.go:339-408 | the preparing step: configuration first, then resume or prepare |
| DeploymentController.Controller.ResumeOrPrepare | internal/controller/mcudeployment_controller.go:355-408 | the preparing step after its configuration |
| DeploymentController.Controller.PhaseWriting | internal/controller/mcudeployment_controller.go:411-461 | the writing step |
| DeploymentController.Controller.PhaseActivating | internal/controller/mcudeployment_controller.go:464-492 | the activating step |
| DeploymentController.Controller.PhaseConfirming | internal/controller/mcudeployment_controller.go:496-530 | the confirming step |
| DeploymentController.Controller.ReconcileDeployed | internal/controller/mcudeployment_controller.go:752-808 | availability, port and configuration of a deployed object |
| DeploymentController.Controller.ReconcileConfigOnly | internal/controller/mcudeployment_controller.go:283-311 | push, reboot or fail for good |
| DeploymentController.Controller.Reconcile | internal/controller/mcudeployment_controller.go:74-114 | one reconcile is one step of the world: stored objects, staged slots and the command log |
| DeploymentSafety.ReconcileMoves | internal/controller/mcudeployment_controller.go:74-114 | every reconcile keeps the phase or raises its rank, keeps bound node, deployment ID, digest, size and stamp once set, sends only the commands of its phase, and binds only a free node; no patch failure changes that |
| DeploymentSafety.PreparingMoves | internal/controller/mcudeployment_controller.go:339-408 | the same for Preparing, with the reports that let it skip ahead |
| DeploymentSafety.DeployedMoves | internal/controller/mcudeployment_controller.go:752-808 | the same for Deployed, which can only stay or fail |
| DeploymentSafety.CandidatesAreListed | internal/controller/mcudeployment_controller.go:125-143 | a candidate is a listed node that is selected, and conversely |
| DeploymentRuns.StepKeepsInv | internal/controller/mcudeployment_controller.go:74-179 | one reconcile or user step keeps exclusive binding, attribution of commands and the block structure |
| DeploymentRuns.RunKeepsInv | internal/controller/mcudeployment_controller.go:160-179 | over every run at most one non-failed deployment is bound to a node, and the commands a node receives form consecutive single-deployment blocks |
| DeploymentRuns.ReachableIsSafe | internal/controller/mcudeployment_controller.go:160-179 | the same from the empty cluster |
| DeploymentRuns.TransitionKeepsExclusive | internal/controller/mcudeployment_controller.go:165-179 | a reconcile never binds a second live deployment to a node |
| DeploymentRuns.TransitionKeepsLog | internal/controller/mcudeployment_controller.go:85-113 | once a later deployment has sent a command to a node an earlier one never does again |
| DeploymentRuns.RunEvolves | internal/controller/mcudeployment_controller.go:85-113 | over every run an object keeps its rank or gains rank and keeps its write-once fields; Failed is absorbing |
| DeploymentRuns.PhaseChangesAreBounded | internal/controller/mcudeployment_controller.go:56-65 | a run of any length changes the phase of an object at most as often as its rank rises, at most eight times |
| DeploymentConditions.ReconcileAgrees | internal/controller/mcudeployment_controller.go:607-694 | every phase change, failure and availability flip keeps the conditions in agreement |
| DeploymentConditions.RunAgrees | internal/controller/mcudeployment_controller.go:631-694 | over every run from agreeing conditions: one condition per type, Ready=True exactly when Progressing=False and Available=True, and only in Deployed |
| DeploymentConditions.ReachableAgrees | internal/controller/mcudeployment_controller.go:631-694 | the same in every reachable state |
| DeploymentConditions.WithReadyDerives | internal/controller/mcudeployment_controller.go:634-654 | Ready follows the other two conditions whatever it was before |
| DeploymentConditions.AvailabilityAgrees | internal/controller/mcudeployment_controller.go:759-787 | availability flips of a deployed object keep the agreement |
| ConfirmTimer.LeavesConfirmingExactlyWhen | internal/controller/mcudeployment_controller.go:496-530 | step: exactly which reconciles leave Confirming, and for Deployed or a timeout; a stamp is always there |
| ConfirmTimer.StampIsNow | internal/controller/mcudeployment_controller.go:581-593 | a new stamp is the current second, and nothing else writes one |
| ConfirmTimer.TimeoutIsNeverEarly | internal/controller/mcudeployment_controller.go:519-527 | over any run in between, a ConfirmTimeout failure comes more than two minutes less one second after the stamp was taken |
| Staging.PreparingSeesNoOwnSlot | internal/controller/mcudeployment_controller.go:367-375 | in no reachable state does a deployment in Preparing meet a slot staged under its own ID |
| Staging.StepKeepsStaging | internal/controller/mcudeployment_controller.go:356-491 | each step keeps the order of commands and the origin of staged slots |
| Staging.RunKeepsStaging | internal/controller/mcudeployment_controller.go:356-491 | over every run from a state with the invariant, each activation follows a completed write of the same deployment to the same node, across crashes anywhere |
| Staging.ReachableIsStaged | internal/controller/mcudeployment_controller.go:356-491 | the same in every reachable state |
| Preparation.StepKeepsPrepared | internal/controller/mcudeployment_controller.go:376-407 | a step keeps the order: only a deployment that the device accepted writes to it |
| Preparation.RunKeepsPrepared | internal/controller/mcudeployment_controller.go:376-407 | over every run, each write follows a prepare of the same deployment that the same node accepted |
| Preparation.ReachableIsOrdered | internal/controller/mcudeployment_controller.go:376-491 | in every reachable state an activation follows a completed write, and that an accepted prepare, all of one deployment on one node |
| Staging.ResumesWithoutSecondActivate | internal/controller/mcudeployment_controller.go:470-491 | an activation is sent exactly when the device answers and reports neither its own activation nor pending_verify; otherwise the deployment reaches Confirming without a command and keeps its stamp |
| Activation.ActivatingExactly | internal/controller/mcudeployment_controller.go:464-491 | the one command of a reconcile in Activating, and exactly when it moves on to Confirming |
| Activation.StepActivatesExactlyWhen | internal/controller/mcudeployment_controller.go:481-491 | a step keeps "every deployment in Confirming or Deployed has sent its own activation" exactly when it does not take a pending_verify for an activation never sent |
| Activation.RunActivatesExactlyWhen | internal/controller/mcudeployment_controller.go:481-491 | the same over every run: it holds in every state exactly when no reconcile skips |
| Activation.StepActivatesOnceExactlyWhen | internal/controller/mcudeployment_controller.go:470-490 | a step keeps "no deployment activates twice" exactly when it does not meet an activated device that reports neither its slot nor pending_verify |
| Activation.RunActivatesOnceExactlyWhen | internal/controller/mcudeployment_controller.go:470-490 | the same over every run with crashes and failed patches anywhere |
| Activation.DevicesThatRememberAreActivatedOnce | internal/controller/mcudeployment_controller.go:470-473 | from the empty cluster, when staged slots follow the commands, every deployment activates at most once |
| Activation.StartIsClean | internal/controller/mcudeployment_controller.go:74-85 | the empty cluster satisfies every invariant that the run results start from |
| ActivationGaps.SkippingIsReachable | internal/controller/mcudeployment_controller.go:481-488 | a legal run from the empty cluster on which a deployment is Confirming without having activated |
| ActivationGaps.RepeatingIsReachable | internal/controller/mcudeployment_controller.go:481-488 | a legal run from the empty cluster on which a deployment activates twice |
| DeploymentProgress.BindsExactlyWhen | internal/controller/mcudeployment_controller.go:117-158 | a deployment binds exactly when one listed node matches, is free and the patch lands, and to that node |
| DeploymentExactly.BindsByName | internal/controller/mcudeployment_controller.go:117-158 | a deployment with a node name binds to exactly the one node of that name; else it fails with NoDeviceMatched, AmbiguousBinding or DeviceBusy, each exactly when |
| DeploymentExactly.BindsByLabels | internal/controller/mcudeployment_controller.go:132-158 | the same without a name, for the one node that carries every pair of the selector, a missing label counting as empty |
| DeploymentExactly.PullingExactly | internal/controller/mcudeployment_controller.go:183-210 | digest, size and the deployment ID of the registry's answer, or no change |
| DeploymentExactly.PreparingExactly | internal/controller/mcudeployment_controller.go:339-408 | which answers lead to Writing, Activating, Confirming or Failed, each exactly when, with the reason of every failure, and when prepare and the configuration are sent |
| DeploymentExactly.WritingExactly | internal/controller/mcudeployment_controller.go:417-460 | the write is sent exactly when device and blob are there; Activating is entered exactly when it was complete, the digest right, and the patch lands |
| DeploymentExactly.ActivatingExactly | internal/controller/mcudeployment_controller.go:464-491 | the activation sent, Confirming entered, or failed for an unsupported version, each exactly when |
| DeploymentExactly.ConfirmingExactly | internal/controller/mcudeployment_controller.go:496-530 | a confirmation wins over a rollback state, that over the timeout of two minutes; nothing else leaves the phase |
| DeploymentExactly.DeployedExactly | internal/controller/mcudeployment_controller.go:752-830 | the availability condition for each state of the node, and exactly when the port is posted, the configuration pushed, the device rebooted, and the object fails |
| DeploymentExactly.SetPhaseExactly | internal/controller/mcudeployment_controller.go:575-605 | what a landed phase change leaves: phase, node, message, the three conditions and the stamp; and nothing when a patch fails |
| DeploymentExactly.FailExactly | internal/controller/mcudeployment_controller.go:607-629 | a landed failure: phase, reason and conditions |
| DeploymentExactly.PhaseShows | internal/controller/mcudeployment_controller.go:631-694 | status and reason of the three conditions after entering each phase |
| DeploymentProgress.StaleListBindsTwice | internal/controller/mcudeployment_controller.go:165-179 | two reconciles from one stale list break exclusive binding |
| DeploymentProgress.UndisturbedStep | internal/controller/mcudeployment_controller.go:183-530 | step: one undisturbed reconcile of a bound deployment moves one phase on and sends that phase's command |
| DeploymentProgress.UndisturbedRollout | internal/controller/mcudeployment_controller.go:56-65 | five undisturbed reconciles take a bound deployment to Deployed and Ready with the registry's digest and size, and the node received prepare, one completed write and one activation |
| NodeStep.MergeOfDiff | internal/heartbeat/server.go:317-373 | a merge patch restores the changed copy on its own base; on any other status each of the nine fields keeps its current value unless the writer changed it |
| NodeRuns.StepRefines | internal/heartbeat/server.go:308-374 | one read, locked patch, plain patch or foreign write keeps the refinement |
| NodeRuns.RunRefines | internal/controller/mcunode_controller.go:102-140 | for every schedule the heartbeat fields are the fold of the committed heartbeats and timeouts in commit order |
| NodeRuns.StalePatchIsRefused | internal/controller/mcunode_controller.go:102-107 | step: a locked patch from a copy read before another write changes nothing, and only then |
| NodeRuns.FoldKeepsReadiness | internal/controller/mcunode_controller.go:89-136 | Status.Ready implies running, validated and a recorded heartbeat; Ready=True implies Status.Ready; Status.Ready implies Ready=True or ClockUnsynced |
| NodeRuns.ReachableIsReady | internal/heartbeat/server.go:304-374 | in every state of every schedule from the creation of the node on: the heartbeat fields are the fold of the committed operations, and the same three implications hold |
| NodeRuns.ReadyExactlyAfterReconcile | internal/controller/mcunode_controller.go:89-109 | right after a node reconcile Ready holds exactly when running, validated and heard of within 10 s |
| NodeRuns.ClockUnsyncedTurnsReadyExactlyWhen | internal/controller/mcunode_controller.go:92 | when a clock_unsynced node turns Ready at the next reconcile, although its condition never does |
| NodeRuns.FieldsComeFromOneBeat | internal/heartbeat/server.go:313-334 | state, validation and deployment ID of a node that is not offline all come from its last heartbeat |
| NodeFields.FoldShowsLastBeat | internal/heartbeat/server.go:313-374 | after any operations that hold a heartbeat: address, digest, deployment, readings, time, state, both conditions and Status.Ready are those of the last heartbeat and of whether a reconcile found it over 10 s old |
| NodeFields.NothingBeforeBeat | internal/controller/mcunode_controller.go:109-128 | without a heartbeat there is no address, no state and no readiness, and the conditions say not provisioned |
| NodeFields.LastTemperatureKept | internal/heartbeat/server.go:332-335 | the temperature is the last reading that is not -127 |
| NodeFields.ReachableShowsLastBeat | internal/heartbeat/server.go:313-374 | the same in every state of every schedule from creation on |
| NodeFields.EndpointHasLastAddress | internal/controller/mcunode_controller.go:216-269 | a successful reconcile publishes the address of the last heartbeat and the right port, ready exactly when that heartbeat was running and validated and the node never went silent after it |
| NodeApi.AttemptsRefine | internal/heartbeat/server.go:313-374 | the retry loop, with reads that may be stale, commits at most once, last, on top of everything that landed before |
| NodeApi.SucceedsExactlyWhen | internal/heartbeat/server.go:313-378 | it succeeds exactly when one of its four attempts reads the current object and is undisturbed, and all before it conflicted, by a foreign write or a stale read |
| NodeApi.WriteSucceedsExactlyWhen | internal/heartbeat/server.go:313-378 | the same for the handler's four attempts |
| NodeApi.FailureCommitsNothing | internal/heartbeat/server.go:313-378 | an operation is committed if and only if the loop reports success |
| NodeApi.Server.WriteBeat | internal/heartbeat/server.go:313-374 | the retry loop with its in-place overwrite is the function Attempts with the heartbeat operation |
| NodeApi.Server.ReconcileStatus | internal/controller/mcunode_controller.go:89-152 | the status part of the node reconcile is one attempt with the timeout operation; then the endpoint is published, ready exactly when the device is routable |
| NodeApi.EndpointFollowsReadiness | internal/controller/mcunode_controller.go:216-269 | after a successful reconcile the published endpoint has the device's address and is ready exactly when the device is running, validated and recently heard; after a failed one it is what it was |
| HeartbeatServer.FindNode | internal/heartbeat/server.go:518-548 | finds a node exactly when one and only one claims the ID |
| HeartbeatServer.HandleHeartbeat | internal/heartbeat/server.go:231-398 | 405, 400, 200 and 401 exactly when; in particular 401 exactly when the bearer token is neither the one stored under the node's key nor a previous one; what each outcome leaves unchanged, and that metrics are published exactly when the write landed |
| HeartbeatServer.BeatIsExposed | internal/heartbeat/server.go:380-396 | after a published heartbeat each of the eight gauges shows its own reading under node, deployment and chip, and nothing else under that node |
| Confirmation.DeployedNeedsOneHeartbeat | internal/controller/mcudeployment_controller.go:505-510 | in every interleaving a deployment enters Deployed only if one committed heartbeat carried running, ota_validated and its deployment ID together |
| TokenRotation.SecretStore.ValidateToken | internal/heartbeat/server.go:148-178 | current exactly when the bearer token is the trimmed value under the node's key in the cached Secret; previous exactly when it is not, the key is "token", and it is the trimmed previousToken |
| TokenRotation.SecretStore.ClearPreviousToken | internal/heartbeat/server.go:180-188 | removes previousToken, whatever it holds by then, and nothing else |
| TokenRotation.SecretStore.ReconcileTokenRotation | internal/controller/mcunode_controller.go:282-304 | the request to replay while the cached Secret shows an open rotation |
| TokenRotation.MatchIsAccepts | internal/heartbeat/server.go:166-177 | for any non-empty token the raw lookup is the abstract one |
| TokenRotation.MatchIsExact | internal/heartbeat/server.go:166-177 | the same for any Secret, per node or shared |
| TokenRotation.TrimIsExact | internal/heartbeat/server.go:167 | trimming cuts spaces, and only spaces, off both ends |
| TokenRotation.RunKeepsInv | internal/controller/mcunode_controller.go:271-281 | in every run with lost, late and repeated messages and lagging reads, the Secret and the version that reads are served both accept the device's token; previousToken is gone only once the device holds the current token |
| TokenRotation.EnrolledStaysAccepted | internal/controller/mcunode_controller.go:271-281 | the same from enrolment on |
| TokenRotation.DistanceNeverGrows | internal/heartbeat/server.go:268-277 | between operator writes a rotation never moves backwards |
| TokenRotation.RotationCompletes | internal/controller/mcunode_controller.go:282-322 | once reads have caught up, one delivered request and one handled heartbeat finish any open rotation |
| TokenRotation.RotationIsSafeExactlyWhen | internal/heartbeat/server.go:160-188 | starting a rotation is safe in all continuations if and only if no handler has a clear pending and no version still readable holds the current token with a previous one |
| TokenRotation.StaleClearStrands | internal/heartbeat/server.go:180-188 | otherwise a continuation without the operator strands the device |
| TokenRotation.StrandedForGood | internal/heartbeat/server.go:182-188 | a device stranded by a stale clear stays locked out in every continuation without the operator |
| ConfigSync.Agent.PushConfigIfNeeded | internal/controller/mcudeployment_controller.go:225-278 | verdict, payload, device state and the one POST are those of Push and Posts, in any map order |
| ConfigSync.Agent.ReconcileConfigOnly | internal/controller/mcudeployment_controller.go:283-311 | push then reboot, also when a former push never took effect, and no other call |
| ConfigSync.PushExactly | internal/controller/mcudeployment_controller.go:225-278 | when a push fails for good and why, is tried again, posts and which keys, and asks for a reboot, each exactly when |
| ConfigSync.LengthIsEncoded | internal/controller/mcudeployment_controller.go:235-242 | the lengths checked are those of the UTF-8 encoding |
| ConfigSync.UncitedKeysKept | internal/controller/mcudeployment_controller.go:212-214 | keys not cited, and reserved ones, keep their values whatever happens |
| ConfigSync.ConvergesExactlyWhen | internal/controller/mcudeployment_controller.go:212-278 | one uninterrupted reconcile stores and activates the desired configuration exactly when the device can store it |
| ConfigSync.ConvergedIsQuiet | internal/controller/mcudeployment_controller.go:262-271 | once converged nothing is posted or rebooted again |
| ConfigSync.UnknownKeyNeverSettles | docs/core/agent-api.md:205-208 | a key the device ignores causes one more push and reboot at every reconcile |
| ConfigSync.CrashSafe | internal/controller/mcudeployment_controller.go:216-220 | after any history of reconciles interrupted anywhere, one uninterrupted reconcile converges and the next is quiet |
| ConfigRollout.ConfigOnlyIsPush | internal/controller/mcudeployment_controller.go:283-311 | in Deployed the controller sends PushConfig exactly when the push makes its POST and Reboot exactly when it asks for it, fails for the same reason, and moves the device as ConfigSync says |
| ConfigRollout.PreparingIsPush | internal/controller/mcudeployment_controller.go:345-353 | in Preparing the POST comes before prepare, nothing reboots, and a permanent error fails the deployment before prepare is sent |
| ConfigRollout.DeployedConverges | internal/controller/mcudeployment_controller.go:283-311 | one undisturbed reconcile of a deployed object stores and activates the desired configuration exactly when the device can store it |
| ConfigRollout.ConvergedIsLeftAlone | internal/controller/mcudeployment_controller.go:262-311 | after that a reconcile sends no command and the object stays Deployed, whatever happens to its calls |
| ConfigRollout.ConfigFailsExactlyWhen | internal/controller/mcudeployment_controller.go:227-245 | a deployed object fails exactly when its map is missing or over the byte limits and the patch lands, with that reason |
| Metrics.IndexHoldsLast | internal/metrics/metrics.go:126-134 | the index holds the labels of the last heartbeat of exactly the nodes not removed since |
| Metrics.SeriesAreExact | internal/metrics/metrics.go:116-159 | for every history and gauge a series exists exactly under the indexed labels of a node with a value to show, and shows it |
| Metrics.AlwaysShown | internal/metrics/metrics.go:136-158 | six gauges show every tracked node, temperature and timestamp some |
| Metrics.SeriesPerNode | internal/metrics/metrics.go:102-114 | at most one series per node and gauge, exactly one in the six, none for a removed node |
| Metrics.Registry.UpdateFromHeartbeat | internal/metrics/metrics.go:119-159 | the registry stays the one its history of calls makes |
| Metrics.Registry.RemoveNode | internal/metrics/metrics.go:107-114 | the same for a removal |
| MetricsRaces.StepAgreesExactlyWhen | internal/metrics/metrics.go:107-159 | one step of concurrent calls keeps index and series in agreement exactly when it is not the write of an overtaken call |
| MetricsRaces.RunAgreesExactlyWhen | internal/metrics/metrics.go:107-159 | the same over every interleaving |
| MetricsRaces.LeftoverStays | internal/metrics/metrics.go:102-114 | a series an overtaken write left behind for a removed node stays as long as no call for that node follows |
| MetricsRaces.RemovalCanBeOvertaken | internal/metrics/metrics.go:107-137 | a heartbeat under way while its node is removed leaves a series behind |
| MetricsRaces.UndividedCall | internal/metrics/metrics.go:119-159 | undivided, the two halves of a call are the sequential update |
| DeviceEffects.Node.ReconcileTlsCert | internal/controller/mcunode_controller.go:332-399 | push, reboot, then record, stopping at the first failure |
| DeviceEffects.Node.ReconcileRebootRequest | internal/controller/mcunode_controller.go:430-464 | reboot for a new nonce, then record |
| DeviceEffects.TlsKeepsRecorded | internal/controller/mcunode_controller.go:353-393 | a newly recorded digest was pushed and then taken up by a reboot |
| DeviceEffects.RunKeepsRecorded | internal/controller/mcunode_controller.go:353-391 | over every run a recorded nonce was rebooted for and a recorded digest was pushed and rebooted with no other push between |
| DeviceEffects.RecordedRequestIsDone | internal/controller/mcunode_controller.go:431-434 | a recorded nonce causes no further reboot while the annotation keeps its value |
| DeviceEffects.TlsExactly | internal/controller/mcunode_controller.go:353-393 | which calls a certificate causes and when it is recorded, exactly |
| DeviceEffects.RequestExactly | internal/controller/mcunode_controller.go:430-464 | when a request reboots and when it is recorded, exactly |
| DeviceEffects.CertificateTakesEffect | internal/controller/mcunode_controller.go:353-399 | after any history one reconcile that gets through brings a certificate into force, and later ones do nothing |
| DeviceEffects.RequestTakesEffect | internal/controller/mcunode_controller.go:430-464 | after any history a new request reboots once and is recorded |

## Left out

- HTTP, TLS, JSON and WebSocket plumbing, log streaming and server start-up: replies are values of a datatype.
- Kubernetes events, owner references, finalizers, Services, requeue delays, informers and watches.
- SHA-256 and Ed25519: any incremental hash and any verification function stand for them; the certificate digest is given.
- Human-readable condition messages, transition times and status messages other than the failure reason.
- An unknown phase string in a stored deployment: the code ignores it, the model has no such phase.
- NegotiateAPIVersion and the POST wrappers: their outcome is an answer of the environment.
- DeploymentController.Controller.Reconcile: the answers for configuration, write and digest check are parameters; `ConfigRollout` relates them to the push and `Rollout` to the transfer.
- NodeRuns.RunRefines: covers one node object from creation on; deleting and recreating it is not a step.
- NodeRuns.RunRefines: all heartbeat fields travel as one field of the merge patch, which is exact because only locked patches change them.
- TokenRotation.SecretStore.ValidateToken: the Secret's values are valid UTF-8; constant-time comparison is not modelled.
- Metrics.Registry.UpdateFromHeartbeat: calls one at a time; `MetricsRaces` interleaves them on one gauge.
- Resolving which Secret a node uses, the shared Secret's name, and NodeKey.
- McuDeploymentSet and the admission webhook of docs/core/design.md, which have no code.

# BTicino C300X integration: a verified model

This project models the stateful cores of the Home Assistant integration for the BTicino C300X video intercom and
proves what they keep over whole runs. `dafny verify dfyconfig.toml` checks everything.

How a core is modelled follows how it is written. A protocol whose blocks run between awaits is a state, one effect per
block, and a run is any sequence of blocks whose guards allow it; a class beside it carries the fields the source
mutates, and each of its methods is proved to have exactly the effect of its block. Loops over files, entries, chunks,
tags and form fields are methods with loops, proved against a function whose properties are the lemmas. Where the code
falls short of what it promises, one lemma gives a concrete input or run that shows it and another the exact condition.

| file | core |
|---|---|
| `CameraState.dfy`, `Camera.dfy` | the camera's WebRTC session registry: its blocks as effects, and as methods on the registry |
| `CameraInvariants.dfy`, `CameraStages.dfy` | what every block keeps, and what it does to one id's offer, session and close |
| `CameraClose.dfy`, `CameraAsks.dfy`, `CameraStops.dfy`, `CameraShared.dfy` | closing: what a close was asked for, and when it stops the media that sessions share |
| `CameraLoss.dfy`, `CameraRemoval.dfy`, `CameraRuns.dfy` | cancellation, entity removal, and concrete runs that go wrong |
| `CameraIce.dfy`, `CameraFlush.dfy`, `CameraDrops.dfy`, `CameraAges.dfy` | ICE candidates: buffering, replay up to the end of a flush, which are dropped, and which buffer is the oldest |
| `RtspEvents.dfy` | waiting for agent events |
| `CallbackTransport.dfy` | reconciling the agent's callback transport |
| `Blueprints.dfy` | synchronising the bundled blueprints |
| `Activations.dfy`, `ActivationFlow.dfy` | device activations and the flow that edits them |
| `Patcher.dfy`, `RoutingTable.dfy` | the hash-verified byte patcher and its table |
| `Upload.dfy` | the chunked agent update |
| `ReleaseVersion.dfy` | release versions and the previous tag |
| `MediaFacts.dfy` | live media facts for diagnostics |
| `WeatherCache.dfy` | the forecast cache |
| `Controls.dfy` | display controls and command validation |
| `DisplayForm.dfy` | the per-entity display form |
| `Options.dfy`, `Text.dfy`, `ByteStrings.dfy` | optional values, ASCII text and numerals, bytes |

## What the proofs found

- A ring preview's close looks for other owners of the media before it refreshes the video status, so its check is
  stale: a preview of the same ring that registers during the refresh does not keep the media from being stopped under
  it (`CameraRuns.StaleCheckStopsSharedMedia`). This happens exactly when the close was the last owner at its check, is
  not at its decision, asks for the stop and finds no ring, and it needs a registration or a put-back in between
  (`CameraShared.SharedStopMeansANewOwner`). Every other close decides on a fresh check (`CameraClose.EveryDecisionIsSound`).
- A cancelled close puts its session back only when its id is still free. When an offer has taken the id meanwhile, the
  session is neither registered nor closed (`CameraRuns.ReusedIdLosesASession`). A run loses a session exactly when one of
  its blocks registers under, or puts back to, a taken id (`CameraLoss.RunLosesExactly`); never beginning an offer for the
  id of a pending close is enough to avoid that (`CameraLoss.NoSessionIsLost`).
- Entity removal does not wait for closes made by the stop hooks or the stream source. One of them cancelled after
  removal leaves a registered session behind (`CameraRuns.LateCancelLeavesASession`). The ids left after removal are exactly
  those put back since it drained and not closed again (`CameraRemoval.RemovalLeavesExactly`).
- A flush interrupted by the failure or cancellation of its offer leaves the rest of the buffer where it is. Every flush
  that stops otherwise has forwarded everything (`CameraRuns.InterruptedFlushLosesTheRest`,
  `CameraFlush.FlushCompletesExactly`).
- A completed callback mode change goes unreported, for good, when the call that completes it is given an HTTPS URL
  without the override, or finds the agent no longer configurable (`CallbackTransport.UnreportedChange`,
  `CallbackTransport.UnreportedByUnconfigurable`, `CallbackTransport.ChangeIsReportedExactly`).
- A blueprint run cut short by an error leaves files newer than the manifest. Such a file counts as customised from
  then on and follows no later release (`Blueprints.MissedRelease`, `Blueprints.CutShortRunFreezesAFile`), a first install
  as well as an update. It follows exactly when its digest did not change or, without an entry, is a legacy one
  (`Blueprints.CutShortKeepsManagedExactly`, `Blueprints.CutShortFollowsExactly`).
- A cover position within the step tolerance below a whole number is accepted and then cut down, not rounded:
  49.9999995 is sent as 49 (`Controls.AcceptedPositionOffByOne`, `Controls.PositionsAreTruncated`). A light whose minimum
  colour temperature is 2000.5 is sent 2000 (`Controls.AcceptedColorTempBelowMinimum`, `Controls.ColorTempStaysInRangeExactly`).
- A forecast lookup keeps the revision it began with. When the state changes during its calls, what the service answers for
  the new state is stored and returned under the old revision (`WeatherCache.MixedAnswer`); a run mixes revisions exactly
  when a reply is for another one (`WeatherCache.CacheIsTransparent`).
- A stored display override for a custom name that has none is kept by the lenient normaliser and refused by the strict
  one, so posting its own rendered form unchanged fails (`DisplayForm.MissingCustomNameIsRefused`,
  `DisplayForm.FormRoundTrip`).

## Model

| member | source | states |
|---|---|---|
| CameraInvariants.StepKeepsInv | custom_components/bticino_c300x/camera.py:451-1223 | every block keeps the registry consistent: an active id has a known session of that id, a close in progress holds exactly one session, an offer knows the session or the inner close it waits for, and tear-downs balance registrations and put-backs |
| CameraInvariants.RunKeepsInv | custom_components/bticino_c300x/camera.py:451-1223 | the same over every sequence of blocks |
| CameraClose.TornDownAtMostOnce | custom_components/bticino_c300x/camera.py:1042-1072 | in every run a session is torn down at most once, and once more for each cancelled close that put it back |
| CameraClose.EverySessionIsSomewhere | custom_components/bticino_c300x/camera.py:1051-1072 | every session ever registered is registered, held by a close, has completed its provider close, or is lost |
| CameraClose.EveryDecisionIsSound | custom_components/bticino_c300x/camera.py:1150-1171 | over every run, media is stopped exactly by a last owner whose close asks for it and which is no ring unless forced, and without a status refresh never while another session of the resource is registered |
| CameraClose.StepGrowsDecisions | custom_components/bticino_c300x/camera.py:1150-1171 | a block adds at most one decision, and only the last-owner check or the block after the status refresh adds one |
| CameraClose.SomeAskingCloseStops | custom_components/bticino_c300x/camera.py:1072-1171 | the same by what the decisions record, so also for rings that have ended: once the resource is empty and undecided by no close, some close decided as last owner |
| CameraAsks.ClosesAsAsked | custom_components/bticino_c300x/camera.py:939-971 | a block begins a close if and only if its event asks for one: of the session registered under the id, with the stop and the force that the caller passes; no later block changes them, and the close goes through its phases in order |
| CameraAsks.ClosesRemember | custom_components/bticino_c300x/camera.py:1042-1072 | over every run, each close in progress is of the session, and stops or forces, as the event that began it asked |
| CameraAsks.SessionsKeepTheirSort | custom_components/bticino_c300x/camera.py:641-668 | a session exists from its registration on, with the id, resource, kind and waiting candidates of that moment; only the status refresh of its close changes one of these facts, its ring preview |
| CameraStops.ChecksAsAsked | custom_components/bticino_c300x/camera.py:1150-1171 | over every run, the last-owner check sends a close on to the stop if and only if its session is no ring preview, no registered session has the resource, the event that began it asked for the stop and forced it or the session is no ring call |
| CameraStops.DecidesAsAsked | custom_components/bticino_c300x/camera.py:1153-1171 | over every run, the same for the decision after a status refresh, by the earlier check and what the refresh found |
| CameraStops.SomeCloseStopsTheMedia | custom_components/bticino_c300x/camera.py:1072-1171 | in any interleaving of closes, offers, candidates and cancellations: once a resource that was registered has no registered session and no undecided close left, no session of it was ever registered as a ring and none was lost in between, and every close of it that is pending or begins asks for the stop, some close has decided to stop the media |
| CameraShared.StopsSharedExactly | custom_components/bticino_c300x/camera.py:1153-1171 | the decision after a refresh stops media another registered session shares if and only if the earlier check found no other owner, the close asks for the stop, it is forced or the session is no ring any more, and an owner is registered now |
| CameraShared.OwnerComesExactly | custom_components/bticino_c300x/camera.py:641-668 | a resource without a registered session gets one if and only if the block registers a session of it or is the cancellation of a close that puts one back |
| CameraShared.SharedStopMeansANewOwner | custom_components/bticino_c300x/camera.py:1150-1171 | from the check through any run to the decision: shared media is stopped if and only if there was no other owner at the check, there is one at the decision, and the close stops; and then such an owner came in between |
| CameraLoss.StepLosesExactly | custom_components/bticino_c300x/camera.py:1051-1061 | a block loses a session if and only if it registers under, or puts back to, an id that is taken |
| CameraLoss.RunLosesExactly | custom_components/bticino_c300x/camera.py:1051-1061 | a run loses some session if and only if one of its blocks registers under, or puts back to, an id that is taken |
| CameraLoss.NoSessionIsLost | custom_components/bticino_c300x/camera.py:1051-1061 | when no offer begins for the id of a pending close, every session ever registered is registered, being closed or closed, whatever is cancelled |
| CameraRemoval.RemovalLeavesExactly | custom_components/bticino_c300x/camera.py:961-973 | when removal has completed no offer and no candidate buffer is left, the ids still registered are exactly those a cancelled close put back since the drain and no close has taken again, and every other session was closed, lost, or is held by a close removal does not wait for |
| CameraRemoval.RegistersAfterRemovalExactly | custom_components/bticino_c300x/camera.py:1057-1061 | once removal has completed with nothing registered, a block registers a session if and only if it is the cancellation of a close |
| CameraStages.OffersFollowTheirLife | custom_components/bticino_c300x/camera.py:451-549 | every block moves every offer along one automaton: the id's old session is closed first, then the new one is registered, answered and flushed; a failure or cancellation closes what is registered, and an inner close that ends lets its offer go on |
| CameraStages.IdsKeepTheirSessions | custom_components/bticino_c300x/camera.py:1042-1072 | after every block an id has the session that registered, or that a cancelled close put back, and none once a close of it has begun |
| CameraStages.SessionsAreReadyWhenAnswered | custom_components/bticino_c300x/camera.py:750-796 | a session is ready exactly from the provider's answer to the offer that registered it to the end of its home call |
| CameraStages.RemovalFollowsItsSteps | custom_components/bticino_c300x/camera.py:961-973 | removal closes the camera, drains it, then closes the sessions it found one after the other, and is aborted exactly when one of these closes is cancelled |
| CameraStages.NoCloseGetsStuck | custom_components/bticino_c300x/camera.py:1072-1171 | from every reachable state a close in progress ends within four blocks of its own, whatever its status refresh says |
| CameraStages.NoOfferGetsStuck | custom_components/bticino_c300x/camera.py:451-549 | in every stage an offer can go on, however the provider answers, and can be cancelled |
| CameraStages.NoRemovalGetsStuck | custom_components/bticino_c300x/camera.py:961-973 | removal can drain once nothing it waits for runs, and can close its next session or finish whenever none of its own closes runs |
| CameraRuns.StaleCheckStopsSharedMedia | custom_components/bticino_c300x/camera.py:1150-1171 | a run in which a ring preview's close stops media that another registered session shares |
| CameraRuns.ReusedIdLosesASession | custom_components/bticino_c300x/camera.py:1057-1061 | a run in which reusing the id of a pending close loses a session |
| CameraRuns.LateCancelLeavesASession | custom_components/bticino_c300x/camera.py:961-973 | a run in which a late cancelled close leaves a session registered after removal |
| CameraIce.StepKeepsIce | custom_components/bticino_c300x/camera.py:900-937 | every block keeps the ledger of candidates true: each in one place, buffers in arrival order and bounded |
| CameraIce.BuffersAreBounded | custom_components/bticino_c300x/camera.py:917-925 | at all times at most 16 pre-session buffers, and at most 64 candidates in any buffer |
| CameraIce.CandidatesAreReplayedInOrder | custom_components/bticino_c300x/camera.py:927-937 | at every moment: nothing has reached a provider before its session first became ready; what was buffered, before or after the session existed, has been replayed exactly once in arrival order up to what the buffer still holds; no candidate has reached a provider twice |
| CameraIce.EveryCandidateIsInOnePlace | custom_components/bticino_c300x/camera.py:900-937 | every candidate that ever arrived is waiting, in one session's buffer, sent to one provider, or dropped |
| CameraFlush.FlushEndsExactly | custom_components/bticino_c300x/camera.py:927-937 | a flush in progress stops if and only if its offer fails or is cancelled, or its loop finds the buffer empty; in the last case everything buffered has been forwarded |
| CameraFlush.FlushCompletesExactly | custom_components/bticino_c300x/camera.py:750-796 | over every run, a session's flush has ended normally if and only if the provider made it ready, its flush is no longer running and nothing interrupted it; then all that was buffered by that end has been forwarded in order, and, unless its home call has ended, all that was ever buffered |
| CameraFlush.CompletedFlushForwardsAll | custom_components/bticino_c300x/camera.py:927-937 | whatever was buffered for a session at any moment before its flush ended normally has from that end on been forwarded in order of arrival |
| CameraRuns.InterruptedFlushLosesTheRest | custom_components/bticino_c300x/camera.py:750-796 | a run in which an offer fails while its flush hands over the first of two candidates, so that the second is not forwarded |
| CameraDrops.StepDropsExactly | custom_components/bticino_c300x/camera.py:900-925 | a block drops a candidate if and only if it arrives while closing or at a full buffer, or waits in a buffer that the block evicts as the oldest or discards by a close, an offer's handler or the drain |
| CameraDrops.DroppedExactly | custom_components/bticino_c300x/camera.py:900-925 | over every run, a candidate has been dropped if and only if some block dropped it in one of these ways |
| CameraAges.OldestBufferGoesFirst | custom_components/bticino_c300x/camera.py:917-925 | over every run, the buffer that is evicted to make room is the one whose first candidate arrived before those of all the others |
| Camera.Camera.OnCandidate | custom_components/bticino_c300x/camera.py:900-925 | the method on the registry has exactly the effect of its block |
| Camera.Camera.BufferCandidate | custom_components/bticino_c300x/camera.py:917-925 | buffering before a session: the oldest of 16 buffers makes room, the 65th candidate is dropped |
| Camera.Camera.OfferCandidateToSession | custom_components/bticino_c300x/camera.py:905-915 | forwarding exactly when the session is ready, else buffering up to the bound |
| Camera.Camera.FlushTurn | custom_components/bticino_c300x/camera.py:933-937 | one turn of the flush forwards the oldest buffered candidate, and none only when none is left |
| Camera.Camera.StartClose | custom_components/bticino_c300x/camera.py:1072-1110 | a close takes the session of the id out of the registry and drops its waiting candidates before its first await |
| Camera.Camera.RestoreSession | custom_components/bticino_c300x/camera.py:1057-1061 | a cancelled close puts its session back only under a free id |
| Camera.Camera.CheckLastOwner | custom_components/bticino_c300x/camera.py:1150-1171 | the close is the last owner's exactly when no registered session has its resource, and what it then decides |
| Camera.Camera.DecideAfterRefresh | custom_components/bticino_c300x/camera.py:1153-1171 | the decision after the refresh, made with the check before it |
| Camera.Camera.BeginOfferFor | custom_components/bticino_c300x/camera.py:462-472 | an offer is refused exactly while unloading or when its id is already opening; an accepted one starts by closing the id's session |
| Camera.Camera.EndOffer | custom_components/bticino_c300x/camera_media/session_lifecycle.py:34-36 | the end of an offer frees exactly its own id for the next one |
| Camera.Camera.ProviderAnswered | custom_components/bticino_c300x/camera.py:750-796 | only the session that is still the registered one becomes ready or is closed after the provider's answer |
| Camera.Camera.RegisterSession | custom_components/bticino_c300x/camera.py:641-668 | registering moves the waiting candidates of the id into the new session |
| Camera.Camera.DiscardCandidates | custom_components/bticino_c300x/camera.py:1223-1223 | dropping a buffer keeps the order of the others |
| Camera.Camera.HasSessionsForResource | custom_components/bticino_c300x/camera.py:1376-1382 | true exactly when a registered session has the resource |
| Camera.Camera.MarkHomeCallsInactive | custom_components/bticino_c300x/camera.py:1655-1658 | exactly the registered home-call sessions stop being ready |
| Camera.Camera.Drain | custom_components/bticino_c300x/camera.py:961-969 | after the drain all buffers are gone and exactly the registered ids are left to close |
| RtspEvents.SuspendedMeansNoEventSince | custom_components/bticino_c300x/camera.py:1321-1350 | over every run of waits, timeouts, resumptions and events, the revision counts the events and a suspended coroutine captured it after the last one |
| RtspEvents.AnEventWakesEveryone | custom_components/bticino_c300x/camera.py:1342-1350 | after an event no coroutine is suspended |
| RtspEvents.SuspendsExactly | custom_components/bticino_c300x/camera.py:1329-1338 | after every run, a coroutine that begins to wait is suspended if and only if it may wait and no event came since it read the revision |
| RtspEvents.WaitsExactly | custom_components/bticino_c300x/camera.py:1321-1350 | a coroutine is woken exactly by an event while it is pending, expires only by itself, and is gone once it has run again |
| RtspEvents.Revisions.BeginWait | custom_components/bticino_c300x/camera.py:1329-1338 | a coroutine suspends exactly when the wait is positive and the revision is the captured one |
| RtspEvents.Revisions.Resume | custom_components/bticino_c300x/camera.py:1339-1340 | a coroutine that runs again, woken or timed out, takes exactly its own waiter out of the set |
| RtspEvents.Revisions.Wake | custom_components/bticino_c300x/camera.py:1342-1350 | the event raises the revision, empties the set and wakes every waiter whose future is not done |
| CallbackTransport.Transport.AsyncPrepare | custom_components/bticino_c300x/callback_transport.py:41-50 | state, requests and outcome of one call, for every answer of the agent, also one that does not confirm the mode |
| CallbackTransport.Transport.ReconcileOnce | custom_components/bticino_c300x/callback_transport.py:52-91 | the same for the reconciliation inside it |
| CallbackTransport.ReadyMeansSettled | custom_components/bticino_c300x/callback_transport.py:52-91 | over every sequence of calls and failures, ready means a non-configurable agent with HTTPS not wanted, or configured, active and wanted agree and HTTPS is available if wanted; and each restart request comes when the cached configuration is the wanted one |
| CallbackTransport.UnconfirmedModeIsNotUsed | custom_components/bticino_c300x/callback_transport.py:71-78 | over every sequence of calls, a call that asks for the mode and does not get it confirmed raises, does not become ready, asks for no restart and takes over no configuration |
| CallbackTransport.OutcomeExactly | custom_components/bticino_c300x/callback_transport.py:52-91 | when a call ends ready, and each error if and only if its cause, by what the agent reported and answered |
| CallbackTransport.RequestsExactly | custom_components/bticino_c300x/callback_transport.py:52-91 | the requests of a call in order: the re-read after an attempted mutation, the mode write unless the agent has the mode, the restart once the mode is confirmed but not active and none was accepted |
| CallbackTransport.ChangedExactly | custom_components/bticino_c300x/callback_transport.py:71-85 | over every run, a change is on record if and only if some call had a mode write confirmed, or asked for or awaited a restart |
| CallbackTransport.OneRestartIsAccepted | custom_components/bticino_c300x/callback_transport.py:79-85 | at most one restart request is ever accepted and none is made after it, and no call makes two |
| CallbackTransport.OneCallReportsTheChange | custom_components/bticino_c300x/callback_transport.py:52-91 | at most one call returns true, and later calls ask the agent for nothing |
| CallbackTransport.MutationsAreReread | custom_components/bticino_c300x/callback_transport.py:55-59 | after an attempted mutation every call that is not ready re-reads the capabilities first |
| CallbackTransport.ChangeIsReportedExactly | custom_components/bticino_c300x/callback_transport.py:44-50 | a change that becomes ready is reported by some call if and only if the agent is still configurable and the call's URL is not HTTPS without the override |
| CallbackTransport.UnreportedChange | custom_components/bticino_c300x/callback_transport.py:44-50 | a call that completes the change and raises for its HTTPS URL, so that nothing reports the change |
| CallbackTransport.UnreportedByUnconfigurable | custom_components/bticino_c300x/callback_transport.py:62-68 | a run in which the agent comes back without a configurable transport after the restart, so that nothing reports the change |
| CallbackTransport.ReconcileConverges | custom_components/bticino_c300x/callback_transport.py:52-91 | against an honest configurable agent, each call uses up a remaining refusal, the restart request or a pending call, and then the transport is ready |
| CallbackTransport.FreshTransportConverges | custom_components/bticino_c300x/callback_transport.py:25-39 | from construction, refusals plus delay plus two calls always suffice |
| Blueprints.TargetDir.InstallBundledBlueprints | custom_components/bticino_c300x/blueprint_installer.py:101-172 | files, manifest file and the three result lists of a run, for every directory, manifest and release |
| Blueprints.OverwritesExactly | custom_components/bticino_c300x/blueprint_installer.py:125-146 | an existing file is replaced if and only if its bytes match its manifest digest or, without an entry, a legacy digest; it is reported as updated exactly when it changed |
| Blueprints.RestOfTheRun | custom_components/bticino_c300x/blueprint_installer.py:110-151 | obsolete files are removed and reported, shipped names are present afterwards and reported as installed exactly when they were missing, all other files are untouched |
| Blueprints.SecondRunDoesNothing | custom_components/bticino_c300x/blueprint_installer.py:108-172 | a second run reports nothing and changes nothing if and only if the release ships no obsolete name, for every directory and manifest, readable or not |
| Blueprints.ManifestStaysHonest | custom_components/bticino_c300x/blueprint_installer.py:128-153 | over any releases, edits, deletions, lost manifests and cut-short runs, each manifest digest is that of bytes shipped under the name |
| Blueprints.CustomisationSurvives | custom_components/bticino_c300x/blueprint_installer.py:134-142 | a user's version survives every such run: bytes that no release and no legacy table ever shipped under the name, or, while the manifest is kept, any bytes that differ from its entry, a restored older version included, or that have no entry and no legacy digest, until a release ships them again |
| Blueprints.DepartedStays | custom_components/bticino_c300x/blueprint_installer.py:181-190 | file and manifest entry of a file that differs from its entry, or has none and no legacy digest, stay as they are through every run, until a release ships exactly its bytes |
| Blueprints.RestoredVersionSurvives | custom_components/bticino_c300x/blueprint_installer.py:181-190 | an older version restored over a managed file survives every later run |
| Blueprints.PristineFollowsReleases | custom_components/bticino_c300x/blueprint_installer.py:143-146 | an untouched managed file always has the content of the last release that shipped it |
| Blueprints.CutShortRunFreezesAFile | custom_components/bticino_c300x/blueprint_installer.py:143-153 | a file installed or updated by a run that stopped before writing the manifest, and whose content the entry it had or the legacy table does not happen to match, is replaced by no later release that ships other content |
| Blueprints.CutShortFollowsExactly | custom_components/bticino_c300x/blueprint_installer.py:134-153 | after a cut-short run installed or updated a file, the next complete run replaces it by other content if and only if what was written matches the entry from before or, without one, a legacy digest |
| Blueprints.CutShortKeepsManagedExactly | custom_components/bticino_c300x/blueprint_installer.py:143-153 | a run cut short keeps a managed file managed if and only if the part of the release it handled left the file's digest as it was |
| Blueprints.MissedRelease | custom_components/bticino_c300x/blueprint_installer.py:143-153 | a directory and two runs, the first cut short, after which a managed file does not have what the second ships |
| Activations.NormalizeDeviceActivations | custom_components/bticino_c300x/device_activations.py:22-44 | the loop computes the normaliser's specification, first error included |
| Activations.NormalizedExactly | custom_components/bticino_c300x/device_activations.py:29-44 | a list is accepted if and only if it has at most 16 acceptable items with distinct, unreserved ids; the result is their normal forms in order |
| Activations.ItemExactly | custom_components/bticino_c300x/device_activations.py:118-167 | what an item is read as, white space and defaults included, and which is the first complaint about one that is not acceptable |
| Activations.PatternsExactly | custom_components/bticino_c300x/const.py:102-104 | the lengths and characters of ids and addresses |
| Activations.NormalizeFails | custom_components/bticino_c300x/device_activations.py:29-44 | the error of a list that is refused: too many items, else that of the first item that is not acceptable or whose id is taken |
| Activations.ReservedExactly | custom_components/bticino_c300x/device_activations.py:33-33 | the reserved ids are those given without white space, but for blank ones |
| Activations.NormalizedIsValid | custom_components/bticino_c300x/device_activations.py:118-167 | whatever is accepted satisfies every rule for ids, names, types, modes and addresses |
| Activations.NormalizeRoundTrip | custom_components/bticino_c300x/device_activations.py:22-44 | renormalising a valid list gives it back, and fails exactly when it uses a reserved id |
| Activations.DesiredActivationItems | custom_components/bticino_c300x/device_activations.py:53-73 | the builder computes its specification, errors included |
| Activations.DesiredExactly | custom_components/bticino_c300x/device_activations.py:53-88 | building from a valid list: the list itself unless the mode is manual; else the generated stair light and the list, or the first of the three errors bad address, taken id and no place left |
| Activations.StairLightExactly | custom_components/bticino_c300x/device_activations.py:76-88 | the generated stair light, and that it exists if and only if the address without white space is good |
| Activations.DesiredIsValid | custom_components/bticino_c300x/device_activations.py:53-88 | whatever is built from anything has at most 16 valid items with distinct ids |
| Activations.WhereIsAnAddress | custom_components/bticino_c300x/activation_address.py:23-28 | every pair of two-digit parts makes an accepted address of two to four digits |
| Activations.WhereIsTheNumbers | custom_components/bticino_c300x/activation_address.py:23-28 | the address is the two numbers one after the other without leading zeros |
| Activations.PartExactly | custom_components/bticino_c300x/activation_address.py:14-20 | a part is accepted if and only if it, or its default, is one or two digits, and is then the same number in two digits |
| Activations.PartRoundTrip | custom_components/bticino_c300x/activation_address.py:14-20 | a part in normal form normalises to itself |
| ActivationFlow.ActivationSettingsStep | custom_components/bticino_c300x/config_flow_activations.py:70-126 | the settings after a submission and whether it was refused |
| ActivationFlow.SetupFlow.StepUserDeviceActivations | custom_components/bticino_c300x/config_flow.py:622-669 | the flow after the manage form |
| ActivationFlow.SetupFlow.StepUserDeviceActivationItem | custom_components/bticino_c300x/config_flow.py:671-697 | the flow after the item form |
| ActivationFlow.NextKeepsInv | custom_components/bticino_c300x/config_flow_activations.py:129-229 | any submission of either form keeps the items valid and distinct, none named stair_light, and the settings valid |
| ActivationFlow.ActionsExactly | custom_components/bticino_c300x/config_flow_activations.py:129-189 | what each action of an accepted form does: remove takes out exactly the target's item, edit opens it, add opens the item form while a place is left, done or none finishes unless there are too many; a missing target or another action changes no item |
| ActivationFlow.ComplaintsExactly | custom_components/bticino_c300x/config_flow_activations.py:129-189 | which complaint the form shows |
| ActivationFlow.RefusedFormIsShownAgain | custom_components/bticino_c300x/config_flow.py:634-641 | refused settings leave the list and the edited item alone |
| ActivationFlow.SettingsExactly | custom_components/bticino_c300x/config_flow_activations.py:70-126 | a good mode is taken over and a good part as its number in two digits; a bad one refuses the form and keeps the stored one; nothing submitted means the stored one, blank the default |
| ActivationFlow.ItemFormExactly | custom_components/bticino_c300x/config_flow_activations.py:192-229 | the item form stores an item if and only if a place is left, or an item is edited, and what was typed is acceptable with a free id; else it is shown again or left with nothing changed |
| ActivationFlow.TypedItem | custom_components/bticino_c300x/config_flow_activations.py:350-364 | what is read from an item form: the texts without white space, a lock unless another type is given, and a manual address |
| ActivationFlow.FormItemIsNew | custom_components/bticino_c300x/config_flow_activations.py:334-364 | an accepted form item is valid, not named stair_light, and shares its id with no item but the edited one |
| ActivationFlow.RemoveExactly | custom_components/bticino_c300x/config_flow_activations.py:311-317 | removing takes out exactly the item with the id and keeps the order of the others |
| ActivationFlow.RemoveUndoesAdd | custom_components/bticino_c300x/config_flow_activations.py:298-317 | removing an item that was just added gives the list back |
| ActivationFlow.AcceptedFormIsStored | custom_components/bticino_c300x/config_flow_activations.py:192-229 | an accepted form stores the normal form of what was typed, at the end or in place of exactly the edited item |
| ActivationFlow.StoredSettingsAreKept | custom_components/bticino_c300x/config_flow_activations.py:70-126 | submitting the stored settings, or none, changes nothing and is not refused |
| ActivationFlow.FinishedFlowIsBuildable | custom_components/bticino_c300x/config_flow_activations.py:147-155 | after any run, an accepted DONE leaves a list that renormalises to itself and that the builder turns into at most 16 distinct items, the stair light first exactly in manual mode, even when the mode changed on the way |
| Patcher.PatchRouting | scripts/device_routing_builder.py:156-185 | the in-place patcher computes its specification, and writes the target only on success |
| Patcher.WritePatch | scripts/device_routing_builder.py:173-177 | the inner loop writes one patch's bytes, or refuses a write out of its range |
| Patcher.PatchedExactly | scripts/device_routing_builder.py:151-185 | a table with disjoint ranges succeeds if and only if each patch succeeds on its own range of the input; then the length and all bytes outside the ranges are kept and every range has its patched hash |
| Patcher.ListedBytesAreWritten | scripts/device_routing_builder.py:173-177 | on success every byte of every listed write is in the result, unless a later write of the same patch covers it |
| Patcher.RefusedExactly | scripts/device_routing_builder.py:167-183 | a refusal is that of the first patch that does not fit the data by itself, and for the first of its three tests that fails |
| Patcher.OnlyListedWrites | scripts/device_routing_builder.py:173-177 | a byte no listed write covers never changes |
| Patcher.OrderDoesNotMatter | scripts/device_routing_builder.py:167-179 | two orders of the same disjoint patches succeed together and give the same bytes |
| RoutingTable.ShippedTableIsDisjoint | scripts/device_routing_builder.py:41-138 | the shipped ranges are disjoint and their writes in range |
| RoutingTable.ShippedWritesFit | scripts/device_routing_builder.py:41-138 | the shipped table never fails for a write out of range |
| Upload.ChunksReassemble | custom_components/bticino_c300x/agent_update.py:265-284 | for every content, also empty: contiguous offsets from zero, at most 2048 bytes a chunk, exactly the last final, and together the file |
| Upload.UploadChunks | custom_components/bticino_c300x/agent_update.py:265-284 | the loop sends exactly these chunks, up to the first that fails |
| Upload.UploadBundleFile | custom_components/bticino_c300x/agent_update.py:249-284 | an entry that is no record, has a bad path or cannot be read sends nothing and fails |
| Upload.ApplyPackagedAgentUpdate | custom_components/bticino_c300x/agent_update.py:216-246 | for every bundle and every point of failure the requests made are a prefix of the plan, and the update succeeds exactly when everything is deployable and answered |
| Upload.PlanInOrder | custom_components/bticino_c300x/agent_update.py:232-264 | the chunks of each file follow those of the file before it, up to the first bad entry, and deliver the file under its path with its digest and its own mode, or 600 when it has none |
| Upload.PlanIsBegun | custom_components/bticino_c300x/agent_update.py:220-231 | something is requested if and only if the bundle has a hash, an agent version or else a version, and a list of files; the first request is the prepare with the hash and that version |
| Upload.PlanStopsAtABadEntry | custom_components/bticino_c300x/agent_update.py:232-235 | the first bad entry ends the update right after the chunks of the entries before it |
| Upload.UploadableExactly | custom_components/bticino_c300x/agent_update.py:249-264 | an entry is good if and only if it is a record whose path is not empty, does not start with ../, resolves inside the package and can be read |
| Upload.DeployableExactly | custom_components/bticino_c300x/agent_update.py:216-246 | an apply is planned if and only if the update has begun, all entries are good and so is the manifest |
| Upload.ManifestBeforeApply | custom_components/bticino_c300x/agent_update.py:236-246 | the manifest is delivered between the last file and the apply, with mode 600 and the digest of its bytes |
| Upload.AppliedMeansUploaded | custom_components/bticino_c300x/agent_update.py:228-246 | if an apply is requested at all, the whole plan was, from the prepare to the apply, which is its only and last one |
| ReleaseVersion.ParseOfPrinted | scripts/release_version.py:14-22 | parsing a printed version gives it back |
| ReleaseVersion.PrintOfParsed | scripts/release_version.py:14-22 | printing a parsed text gives it back |
| ReleaseVersion.ParsesThePattern | scripts/release_version.py:14-22 | exactly the texts of the pattern are versions |
| ReleaseVersion.BelowIsAStrictTotalOrder | scripts/release_version.py:39-42 | the order b, rc, stable on versions is strict and total |
| ReleaseVersion.BelowGoesByParts | scripts/release_version.py:39-42 | the order goes by the three numbers in turn, then b by its number, then rc by its number, then stable |
| ReleaseVersion.TagsExactly | scripts/release_version.py:25-30 | the tags of versions are exactly the texts of the pattern behind a v |
| ReleaseVersion.SelectPreviousTag | scripts/release_version.py:39-51 | the result is a greatest valid tag strictly below the current one, and none exactly when there is none; a bad current tag is an error |
| ReleaseVersion.PreviousIsUnique | scripts/release_version.py:39-51 | the result depends only on which valid tags there are, not on order, repetitions or invalid tags |
| MediaFacts.FactsNameOneOwner | custom_components/bticino_c300x/agent_diagnostics.py:100-153 | whatever the bridge holds, owner-scoped facts are true for at most one of agent, ring, home call and external, the one it names |
| MediaFacts.FactsExactly | custom_components/bticino_c300x/agent_diagnostics.py:100-153 | each fact is what the bridge says for its owner while that owner has the media, and what the owner alone proves where the bridge is silent |
| MediaFacts.BridgeExactly | custom_components/bticino_c300x/camera.py:1622-1691 | what every event makes of every key of the bridge that the facts are read from |
| MediaFacts.VideoOwnerExactly | custom_components/bticino_c300x/camera.py:1622-1691 | who has the video after every event |
| MediaFacts.ClosingPublishesNothing | custom_components/bticino_c300x/camera.py:1433-1454 | a closing camera publishes no more facts |
| MediaFacts.FactsNeverLatch | custom_components/bticino_c300x/camera.py:1622-1691 | after any run, a media-closed event or the end of a home call that owned the media makes every boolean fact false and the clients zero, until an event states an owner, start, stop or clients |
| MediaFacts.OthersHomeCallEnd | custom_components/bticino_c300x/camera.py:1622-1640 | the end of a home call that did not own the media changes no fact |
| MediaFacts.StoredFactsAreCurrent | custom_components/bticino_c300x/agent_diagnostics.py:70-86 | while the camera is not closing, the stored facts are those of the current bridge |
| MediaFacts.CameraMedia.ApplyStatus | custom_components/bticino_c300x/camera.py:1433-1454 | a status replaces the bridge |
| MediaFacts.CameraMedia.ApplyHomeCallStatus | custom_components/bticino_c300x/camera.py:1271-1292 | a home-call status merges into the bridge and takes the media |
| MediaFacts.CameraMedia.ApplyHomeCallEnded | custom_components/bticino_c300x/camera.py:1622-1653 | the end of a home call clears its keys, and the window's only when it owned the media |
| MediaFacts.CameraMedia.ClearVideoWindow | custom_components/bticino_c300x/camera.py:1660-1691 | the closed window clears every key it owned |
| MediaFacts.CameraMedia.HandleWindowEvent | custom_components/bticino_c300x/camera.py:1779-1797 | a window event merges its part of the bridge and its owner |
| WeatherCache.CacheIsTransparent | custom_components/bticino_c300x/dashboard_weather.py:158-253 | however lookups, replies, state changes, revisions and time interleave, a lookup returns what its own calls were answered, or an entry of its revision at most 300 seconds old; that is what the uncached hourly-then-daily lookup of its revision returns unless one of these answers was for another revision, and a run has such a lookup if and only if some reply in it was for another revision than the lookup began with |
| WeatherCache.QuietIsTransparent | custom_components/bticino_c300x/dashboard_weather.py:158-199 | while no entity gets another revision under a pending lookup of it, every lookup returns what the uncached one would |
| WeatherCache.ChangeLetsAForeignReplyIn | custom_components/bticino_c300x/dashboard_weather.py:164-183 | a state change under a pending lookup lets the service answer it for another revision |
| WeatherCache.MixedAnswer | custom_components/bticino_c300x/dashboard_weather.py:164-199 | a run in which the state changes during the daily call and its forecast is returned and stored under the revision before |
| WeatherCache.StepKeepsInv | custom_components/bticino_c300x/dashboard_weather.py:167-199 | every step keeps each entry equal to the service's answer for the revision it came from, and a lookup asks for daily only where its hourly call gave nothing |
| WeatherCache.StoredForecastServes | custom_components/bticino_c300x/dashboard_weather.py:184-239 | a forecast that answers is returned and stored, and serves exactly the lookups of its entity, kind and revision for the next 300 seconds |
| WeatherCache.OtherRepliesStoreNothing | custom_components/bticino_c300x/dashboard_weather.py:184-199 | any other reply stores nothing: a rejected or a daily one ends the lookup, a failed or empty hourly one turns it to daily forecasts |
| WeatherCache.TagsSayTheKind | custom_components/bticino_c300x/dashboard_weather.py:255-264 | every record of a forecast says hourly or daily as it was asked for, and keeps its other fields |
| WeatherCache.ForecastCache.CachedForecast | custom_components/bticino_c300x/dashboard_weather.py:224-239 | an entry is served exactly when its revision matches and it has not expired |
| WeatherCache.ForecastCache.AskFor | custom_components/bticino_c300x/dashboard_weather.py:167-183 | one round of the loop up to its await |
| WeatherCache.ForecastCache.OnReply | custom_components/bticino_c300x/dashboard_weather.py:184-199 | the rest of the round: reject, store and answer, or go on to daily |
| Controls.EntityControls | custom_components/bticino_c300x/dashboard_controls.py:60-165 | the appended list holds, once each and in the fixed order, exactly the controls of the commands the capabilities stand for, each with its own range and step or options |
| Controls.OfferedExactly | custom_components/bticino_c300x/dashboard_controls.py:60-165 | a control is offered if and only if its feature is supported and its range is finite, not empty and has a positive step, or it has a non-empty option; it is then the one control of its command, and the options of a choice are exactly the non-empty texts of its attribute |
| Controls.TextsKeepOrder | custom_components/bticino_c300x/dashboard_controls.py:51-57 | the options of a choice keep the order and the repetitions of the attribute |
| Controls.ListedInOrder | custom_components/bticino_c300x/dashboard_controls.py:60-165 | the controls follow the fixed order of their commands, none twice |
| Controls.FindsExactly | custom_components/bticino_c300x/dashboard_controls.py:168-249 | looking a command up in the fresh controls finds its control if and only if it is offered |
| Controls.ExecuteControl | custom_components/bticino_c300x/dashboard_controls.py:168-249 | a call is made if and only if the fresh controls offer the command, a number is in range with a step count close to some integer (an option is listed, a button has no value), and the colour or temperature range fits; the call stays in bounds, and each refusal has its error |
| Controls.AcceptsExactly | custom_components/bticino_c300x/dashboard_controls.py:178-192 | what a button, a choice and a number accept |
| Controls.FitsExactly | custom_components/bticino_c300x/dashboard_controls.py:200-242 | what else a colour or a temperature range needs of the state: a known other half, in its box and on its side |
| Controls.CallsTheService | custom_components/bticino_c300x/dashboard_controls.py:195-249 | each command calls its own service, and only the buttons send nothing with it |
| Controls.ToleranceIsAMillionth | custom_components/bticino_c300x/dashboard_controls.py:184-186 | up to a hundred steps, a step count is accepted if and only if it is within a millionth of a whole one |
| Controls.RoundedIsEnough | custom_components/bticino_c300x/dashboard_controls.py:184-186 | testing only the rounded step count accepts exactly the step counts close to some integer |
| Controls.GridPointsAreOnGrid | custom_components/bticino_c300x/dashboard_controls.py:184-186 | every grid point has an accepted step count |
| Controls.CallsStayInBounds | custom_components/bticino_c300x/dashboard_controls.py:193-242 | positions and tilts stay in 0 to 100, colours in their box, and a temperature range has low not above high |
| Controls.CallsCarryTheValue | custom_components/bticino_c300x/dashboard_controls.py:195-249 | the value asked for reaches every call that has one in its own place, colour temperatures and positions without their fraction, and the other half of a colour or range keeps its current value |
| Controls.PositionsAreTruncated | custom_components/bticino_c300x/dashboard_controls.py:220-221 | the position sent is the nearest whole one if and only if the value is not below it |
| Controls.AcceptedPositionOffByOne | custom_components/bticino_c300x/dashboard_controls.py:220-221 | an accepted value whose call is one below the nearest position |
| Controls.ColorTempStaysInRangeExactly | custom_components/bticino_c300x/dashboard_controls.py:199-200 | the colour temperature sent for an accepted value is in the control's range if and only if the value is not between a fractional end of the range and the whole number inside |
| Controls.AcceptedColorTempBelowMinimum | custom_components/bticino_c300x/dashboard_controls.py:199-200 | an accepted value whose call is below the light's minimum |
| DisplayForm.RenderDisplayForm | custom_components/bticino_c300x/config_flow_dashboard.py:275-322 | the loop renders exactly the specified fields |
| DisplayForm.RenderedField | custom_components/bticino_c300x/config_flow_dashboard.py:287-322 | every rendered field holds its own entity's default, and a field that is not rendered is absent |
| DisplayForm.FieldNamesAreDistinct | custom_components/bticino_c300x/config_flow_dashboard.py:101-120 | field names of different places, or of different kinds for one entity, differ, whatever the readable titles are |
| DisplayForm.OverridesFromFields | custom_components/bticino_c300x/config_flow_dashboard.py:163-220 | the loop collects exactly the non-empty options of each entity |
| DisplayForm.FormRoundTrip | custom_components/bticino_c300x/config_flow_dashboard.py:163-220 | posting the rendered defaults unchanged, numbers as integers or integral floats, and normalising again keeps what each entity shows: name mode, custom name, secondary line, page and order; the strict normaliser refuses it exactly for a custom name that is missing |
| DisplayForm.PostedIsShown | custom_components/bticino_c300x/config_flow_dashboard.py:163-220 | for any form, changed or not, each entity is then shown as the form says, with the stored value where a field is missing and the default where a value is not acceptable |
| DisplayForm.MissingCustomNameIsRefused | custom_components/bticino_c300x/dashboard_entities.py:108-114 | an override whose own rendered form the strict normaliser refuses |
| DisplayForm.NormalizeDisplay | custom_components/bticino_c300x/dashboard_entities.py:78-122 | whatever the lenient normaliser keeps is a valid page, order, mode, custom name or secondary line |
| DisplayForm.NormalizesExactly | custom_components/bticino_c300x/dashboard_entities.py:78-122 | which options the lenient normaliser keeps and as what, and that the strict one raises no error if and only if nothing is dropped |
| DisplayForm.NormalizedEntities | custom_components/bticino_c300x/dashboard_entities.py:74-125 | exactly the entities of which something is kept stay |

## Left out

- Camera: session objects are records by identity, so updates through two references to one object are modelled as updates of one record; logging, the media timeline, go2rtc debug calls and SDP handling are not modelled.
- Camera: exceptions other than cancellation inside a close are not modelled; the home-call start and stop requests of an offer are not part of its blocks.
- Camera: which of the agent's stop requests a stop makes (home call, ring call or video) is not modelled.
- Camera: nothing is claimed about sessions that register between the last-owner decision and the actual stop, which the close path does not recheck.
- Camera: other blocks may run between a session becoming ready and the first turn of its flush, which the code runs at once; the theorems hold of the runs in which none does.
- CameraRemoval.RemovalLeavesExactly: says nothing about when closes that removal does not wait for will end, because the code does not drain them.
- CallbackTransport.ReconcileConverges: is about an agent that answers honestly; for other agents only the safety theorems hold.
- Blueprints: a target that is a directory, a manifest that is not valid UTF-8 and an error in the middle of copying one file are not modelled; the legacy digest table is a parameter.
- Activations and ActivationFlow: JSON decoding is a parameter; texts are ASCII, and a field is absent, replaced by its default, or has a text; the reconfigure and options flows, which repeat the setup flow, are not modelled separately.
- Patcher: SHA-256 is a function from bytes to numbers; copying the file mode is not modelled.
- Upload: path resolution is a parameter; the files do not change during an update; what the agent does with the requests is not modelled.
- ReleaseVersion: digits are ASCII; the git call that lists the tags is not modelled.
- MediaFacts: the derived media state, stream paths and the external-owner attributes beside the bridge are not modelled, as they feed no fact; timestamps and the dispatcher signal are not modelled.
- WeatherCache: a reply is for one revision the entity had while the call was pending; a service whose answer changes while the revision stays is not modelled.
- Controls: arithmetic is over the reals; display values, units and labels are not modelled.
- DisplayForm.OverridesFromFields: entity ids are taken as normalised and distinct; an order text is a numeral or a numeral followed by ".0"; the legacy option keys are not modelled.
- HTTP clients, response normalisers, entity plumbing, selectors and translations, bundle comparison and the lint, audit and packaging scripts are not modelled.

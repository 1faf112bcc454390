# AITP playground: verified model

A Dafny model of the stateful cores of the AITP playground and of its JSON canonicalizer.
`dafny verify dfyconfig.toml` checks everything.

The project has one module per component. Each has the same shape: the step functions of the
component on plain values; *runs*, which are sequences of operations or of interleaved steps of
any length; an independent description of the promised behaviour in terms of the whole history
(all earlier grants, admissions, challenges, log entries, control-plane answers); lemmas for all
runs that connect the two; and, where the source updates objects in place, a class whose methods
are proved to take exactly those steps.

| component | files |
|---|---|
| revocation of an agent: deny-set, own signed list, refresh protocol, capability calls | `RevocationState`, `RevocationList`, `RevocationProtocol`, `CapabilityCalls` |
| served manifest against key rotation | `ManifestRotation` |
| at-most-once tables | `ReplayGuard`, `PopChallenges` |
| run store, event bus, SQLite sidecar | `RunStore`, `EventBus`, `SqliteStore`, `SqliteRace` |
| life of a run, and its race with cancels | `RunLifecycle`, `RunRace` |
| metrics as a fold of the event stream | `Metrics`, `MetricsRace` |
| rate limits | `TokenBucket`, `RollingCap`, `SpendLimits` |
| port allocator | `PortAllocator` |
| delegation chains in a workflow | `Delegation` |
| JSON canonicalization (RFC 8785) | `JcsDecimal`, `JcsNumber`, `JcsString`, `JcsOrder`, `JcsJson`, `JcsReader`, `JcsSerializer` |

## How it is modelled

* Times and token counts are reals; `int(...)` of a time is its floor. A list's or manifest's
  `published_at` is the whole second it was signed in. Clocks may stand still but do not step
  back, except where a lemma says what happens when they do (`CopyReadmittedIff`).
* Work under one lock is one step. Where the source does separate visits to a lock, the model
  has separate steps (`EventBus`, `SpendLimits`, `RunRace`, `SqliteRace`, `MetricsRace`,
  `ManifestRotation`), and where an `await` lets other
  work in, the step ends there (`RevocationProtocol`, `RunLifecycle`). After an await the engine
  may go on, finish or raise in any way, which includes stopping for a cancel before a launch.
* The SDK, the control plane and the agents answer through parameters of a step: whether a
  signature verifies, whether a mint succeeds, what a pull returns. A step that cannot be taken
  leaves the state as it is, so every sequence of steps is a run.

## What the code does not give

Where a property fails, a lemma gives the exact condition and another a run that breaks it:

* `runner/engine.py`, `api/runs.py`: one terminal event and a matching status hold when the
  engine is atomic between awaits. At thread granularity they hold exactly under the condition of
  `RunRaces.OneOutcomeIff`; `BadInputsOverCancel`, `RefusalOverCancel`, `StartOverCancel`,
  `CancelOverSuccess`, `FailureOverCancel` and `TwoCancelsLogTwice` fail it.
* `runner/store.py`: the sidecar equals memory for event-free upserts only
  (`UpsertMirrorsIffEventFree`). With threads, the rows mirror the log exactly when no append is
  overtaken (`RowsMirrorIffNotOvertaken`), and a final status is stored exactly when the last row
  write saw it (`StoredStatusIff`, `CancelLostOnRestart`).
* `runner/engine.py`: a delegation chain is the one really held exactly under the condition of
  `ChainIsTrueIff` and `AssumedIsHeldIff`. A later handshake does not clear it, against the
  docstring of `_held_delegation_chain` (`HandshakeKeepsChain`), and a granted probe leaves none
  (`ProbeLosesChain`).
* `aitp_server.py`: there is a latency bound exactly outside `soft_fail`
  (`BoundedIffNotSoftFail`). After a key rotation the list route can answer 503 while the old
  snapshot counts as current, exactly as `UnavailableDisagreesIff` says.
* `aitp_server.py`: the check for a rotation that landed during a re-mint is dead code
  (`SupersededBranchIsDead`), because the mint runs under the lock the rotation needs. A new
  manifest is sure to be before its half-life exactly for lifetimes of two seconds and more
  (`FreshnessNeedsTwoSeconds`).
* `revocation_state.py`: a staleness budget of zero is met at whole seconds only
  (`ZeroBudgetNeedsWholeSecond`).
* `handshake_replay.py`: with a clock that steps back, a copy is admitted again exactly under the
  condition of `CopyReadmittedIff`.
* `observability/metrics.py`: `runs_active` follows the log while run events carry run ids and are
  recorded one at a time. `GaugeDriftsIff` says which event without an id breaks it, and
  `GaugeIsRightIff` when interleaved records do: a decrement that finds zero
  (`EndOvertakesStart`), or an end recorded before its start (`EndRecordedFirst`).

The docstring of `posture` in `revocation_state.py` asks for a pinned issuer as well; the code
takes "a control plane is configured" alone, and so does the model.

## Model

| member | source | states |
|---|---|---|
| `RevocationProtocols.LatencyBound` | agents/base/aitp_server.py:357-393 | outside `soft_fail`, in every interleaving of pulls, failed pulls, signatures, discards and rotations, a jti recorded for its issuer is honoured no later than one signing delay plus the smaller of staleness budget and list lifetime afterwards (strictly before, for the lifetime) |
| `RevocationProtocols.BoundIsExact` | agents/base/revocation_publish.py:123-138 | that bound cannot be improved: one concrete run honours the jti at exactly the moments it allows, for every budget and lifetime and every whole delay |
| `RevocationProtocols.BoundedIffNotSoftFail` | agents/base/aitp_server.py:377-400 | over all its runs an agent has some latency bound exactly when its fail mode is not the string `soft_fail` |
| `RevocationProtocols.SoftFailHonours` | agents/base/aitp_server.py:394-400 | the failing run: under `soft_fail` a recorded jti is honoured at any later time whatever |
| `RevocationProtocols.RunKeeps` | agents/base/revocation_refresh.py:67-122 | invariant of all runs: lists held and in force are complete up to their basis, dated by it, and the list held is the youngest |
| `RevocationProtocols.OnlySigningMakesYounger` | agents/base/revocation_publish.py:113-138 | failed pulls, discards, re-applied lists, ticks and rotations never make the agent's view younger |
| `RevocationProtocols.UnavailableMeansDegraded` | agents/base/aitp_server.py:506-523 | whenever the list route answers 503 the posture is degraded, unless the key was rotated since the list was signed |
| `RevocationProtocols.UnavailableDisagreesIff` | agents/base/aitp_server.py:506-585 | the 503 and the posture disagree exactly when the key was rotated since the held list was signed and the snapshot in force is still young and unexpired |
| `RevocationProtocols.RotationPartsThem` | agents/base/aitp_server.py:578-585 | right after any rotation nothing is served and the posture is what it was |
| `RevocationProtocols.RotationLeavesItCurrent` | agents/base/aitp_server.py:578-585 | a run from start-up that ends with a 503 and a current posture |
| `RevocationProtocols.ServedComesFromAnAnswer` | agents/base/revocation_publish.py:97-110 | everything served is unexpired, of the current key, and carries exactly the entries of some successful control-plane answer; so does what is enforced |
| `RevocationProtocols.InForceWasVerified` | agents/base/revocation_refresh.py:79-122 | whatever is in force was at some earlier step the held list, of the key of that moment, unexpired, and verified: a discarded list never takes effect |
| `RevocationProtocols.VerifiedTakesEffect` | agents/base/revocation_refresh.py:119-122 | and a verified one does, whatever was in force before |
| `RevocationProtocols.LocalRevocationIsForever` | agents/base/revocation_state.py:93-94 | a local revocation is enforced in every later state, whatever snapshots come and in any fail mode |
| `RevocationLists.RefreshEnforcesTheAnswer` | agents/base/revocation_refresh.py:67-122 | after an undisturbed successful refresh exactly the answer's entries and the local revocations are denied, and the posture is current |
| `RevocationLists.ZeroBudgetNeedsWholeSecond` | agents/base/revocation_state.py:180-190 | with a budget of zero, a fresh list is current exactly at a whole second |
| `RevocationLists.RefreshRevocations` | agents/base/revocation_refresh.py:60-139 | the ingest path on the two objects: which list is held, what is in force and what it reports, for every answer and verdict |
| `RevocationLists.IssuerRevocationList.ToServe` | agents/base/revocation_publish.py:97-110 | serves and keeps exactly what `Serveable` says |
| `RevocationLists.IssuerRevocationList.Refresh` | agents/base/revocation_publish.py:113-147 | replaces the list exactly on a complete answer for the right issuer; without a control plane, serves the empty list |
| `RevocationStates.RevocationState.Denied` | agents/base/revocation_state.py:115-129 | the deny-set handed to the SDK is exactly the jtis the precheck calls revoked |
| `CapabilityCalls.GrantedIff` | agents/base/aitp_server.py:909-1027 | a call is granted exactly when its token decodes, is neither denied nor another issuer's, the view is trusted (no control plane, `soft_fail`, or a snapshot unexpired and within the budget), its answer names a challenge issued, unspent and unexpired in the history, and the SDK accepts; its second look at the deny-set matters only without a jti |
| `CapabilityCalls.RefusedIff` | agents/base/aitp_server.py:943-974 | when exactly each early refusal is given, in the same terms |
| `CapabilityCalls.ProofOutcomeIff` | agents/base/aitp_server.py:975-1027 | and each of the 401 challenge, the 429, the proof refusals and the SDK's refusals, from the history of challenges |
| `CapabilityCalls.DegradedServesAreCounted` | agents/base/aitp_server.py:394-400 | the counter is the number of calls that went on under `soft_fail` with nothing current in force |
| `CapabilityCalls.MintedIff` | agents/base/aitp_server.py:716-787 | when exactly a redemption mints, and which refusal it gets otherwise |
| `CapabilityCalls.Decide` | agents/base/aitp_server.py:943-997 | a token refused early neither takes nor spends a challenge; an answer burns the challenge it names, valid or not |
| `CapabilityCalls.EachGrantHasItsOwnChallenge` | agents/base/aitp_server.py:975-1022 | granted calls inject into earlier 401 challenges |
| `CapabilityCalls.GrantedWithinLatency` | agents/base/aitp_server.py:943-974 | the latency bound for capability calls, composed with the revocation protocol |
| `CapabilityCalls.MintedWithinLatency` | agents/base/aitp_server.py:690-767 | the same bound for minting on a redemption |
| `CapabilityCalls.UnavailableRefusesAll` | agents/base/aitp_server.py:357-393 | when nothing can be served and no rotation intervened, every capability call and every redemption is refused |
| `CapabilityCalls.CapabilityGate.Verify` | agents/base/aitp_server.py:909-1027 | the method decides and leaves the state exactly as `Decide`, in the source's order of checks |
| `CapabilityCalls.CapabilityGate.EnforceFreshness` | agents/base/aitp_server.py:357-400 | refuses exactly a degraded posture without the exact `soft_fail` opt-in; counts degraded serves |
| `ManifestRotations.FreeLockMeansCurrentKey` | agents/base/aitp_server.py:468-497 | in every interleaving, whenever the lock is free the stored manifest was minted by the current key |
| `ManifestRotations.RemintNeverUndoesRotation` | agents/base/aitp_server.py:473-496 | a re-mint is stored only if no key was installed since it began; it is strictly younger than what it replaces if that lives two seconds or more |
| `ManifestRotations.UnlockedReadIsCurrentUnlessRotating` | agents/base/aitp_server.py:458-466 | a read without the lock sees another key's manifest only between a rotation's two writes |
| `ManifestRotations.SupersededBranchIsDead` | agents/base/aitp_server.py:489-494 | the superseded branch is never taken |
| `ManifestRotations.RunKeeps` | agents/base/aitp_server.py:468-581 | the invariant over all threads and steps |
| `ManifestRotations.MintedIsFresh` | agents/base/aitp_server.py:458-497 | with a lifetime of two seconds or more, a call that mints serves a manifest of the current key before its half-life, whatever time passes inside the call |
| `ManifestRotations.FreshnessNeedsTwoSeconds` | agents/base/aitp_server.py:414-430 | and exactly then is a new manifest always before its half-life |
| `ManifestRotations.StaleServedIff` | agents/base/aitp_server.py:458-488 | exactly when a call serves a manifest past its half-life: cooldown running or mint failed |
| `ManifestRotations.FreshIsServedAsItIs` | agents/base/aitp_server.py:458-472 | a manifest before its half-life is served as it is |
| `ManifestRotations.FailedMintBacksOff` | agents/base/aitp_server.py:465-488 | after a failed mint at t, calls within thirty seconds leave everything as it is, and from then on a call tries again |
| `ManifestRotations.AloneItIsOneCall` | agents/base/aitp_server.py:458-497 | the stepwise thread run alone is the sequential call |
| `ManifestRotations.AloneItIsOneRotation` | agents/base/aitp_server.py:570-581 | a rotation run alone installs key and manifest together and ends any cooldown |
| `ManifestRotations.ManifestServer.FreshManifest` | agents/base/aitp_server.py:458-497 | the method's new state and result |
| `ManifestRotations.ManifestServer.RotateKeys` | agents/base/aitp_server.py:565-581 | key, manifest and cooldown after a rotation |
| `ReplayGuards.TableRefinesHistory` | agents/base/handshake_replay.py:48-77 | in every run the bounded table decides each envelope exactly as the unbounded history of admissions does |
| `ReplayGuards.ReadmissionIsLater` | agents/base/handshake_replay.py:52-72 | an id admitted twice has a strictly later timestamp the second time |
| `ReplayGuards.CopyIsRefused` | agents/base/handshake_replay.py:54-72 | one (id, timestamp) is admitted at most once for ever |
| `ReplayGuards.TableIsBounded` | agents/base/handshake_replay.py:69-72 | the table never exceeds its size |
| `ReplayGuards.TableTracksHistory` | agents/base/handshake_replay.py:48-77 | no id still inside its window is ever forgotten |
| `ReplayGuards.CopyReadmittedIff` | agents/base/handshake_replay.py:48-77 | whatever the clock does: a copy of an admitted envelope is admitted again exactly when it is inside the window on arrival, there is room, and in between some envelope was read at a time after that window |
| `ReplayGuards.ReplayGuard.Admit` | agents/base/handshake_replay.py:48-72 | verdict and new table |
| `PopChallenges.SpentIffAwaiting` | agents/base/pop_challenges.py:74-93 | an answer gets its challenge exactly when that was issued, is unspent since and unexpired |
| `PopChallenges.EachIssueSpentOnce` | agents/base/pop_challenges.py:63-93 | two spent challenges come from two different issues |
| `PopChallenges.SpentWasIssued` | agents/base/pop_challenges.py:63-93 | what is spent was issued earlier and is not past its expiry |
| `PopChallenges.IssuedIffRoom` | agents/base/pop_challenges.py:63-72 | a challenge is issued exactly when fewer than the limit await an answer in the history and the SDK makes one |
| `PopChallenges.ChallengeTable.Ask` | agents/base/pop_challenges.py:63-72 | reply and new table |
| `PopChallenges.ChallengeTable.Answer` | agents/base/pop_challenges.py:74-93 | reply and new table |
| `EventBus.NoGapNoDuplicate` | src/aitp_playground/runner/store.py:56-85 | in every interleaving, each log position is for each live subscriber in its backlog or handed over exactly once, never both or neither |
| `EventBus.DroppedIffLost` | src/aitp_playground/runner/store.py:65-70 | a position is dropped for a subscriber exactly when some step told it of that position through a closed loop, or ran its callback while 500 positions waited |
| `EventBus.BoxIsCounted` | src/aitp_playground/runner/store.py:96-101 | how many positions were taken, are queued and are in flight, from the steps alone |
| `EventBus.LosslessReplayIsTheLog` | src/aitp_playground/runner/store.py:56-101 | with one producer per run, no closed loop and no full queue, a live subscriber gets its run's whole log in order |
| `EventBus.BacklogThenDeliveriesIsTheLog` | src/aitp_playground/runner/store.py:56-85 | with one producer per run and nothing dropped, backlog then deliveries is the log in order |
| `EventBus.UpsertConservesIffEventFree` | src/aitp_playground/runner/store.py:48-54 | an upsert keeps this exactly when it carries no events |
| `EventBus.RunConserves` | src/aitp_playground/runner/store.py:56-101 | the invariant over all steps of all threads |
| `RunStores.CancelledSurvives` | src/aitp_playground/runner/store.py:36-54 | at thread granularity a cancelled status survives every conditional write, append and status-free upsert |
| `RunStores.UpsertOverlays` | src/aitp_playground/runner/store.py:48-54 | field by field, what an upsert leaves in every run |
| `RunStores.ConditionalWriteLaw` | src/aitp_playground/runner/store.py:36-54 | the conditional write does nothing to a cancelled run, and all that a plain write does to any other: every field, every event, every run |
| `RunStores.AppendLaw` | src/aitp_playground/runner/store.py:56-62 | what an append leaves in every run, also in one it creates, and whom it notifies |
| `RunStores.SubscribeLaw` | src/aitp_playground/runner/store.py:72-80 | the backlog is the log, the queue goes last, no run changes |
| `RunStores.UnsubscribeLaw` | src/aitp_playground/runner/store.py:82-85 | the queue is taken out from between the others, which keep their order |
| `RunStores.FieldStaysUntilSet` | src/aitp_playground/runner/store.py:48-61 | the creation time and any other field last until a write carries them |
| `RunStores.RunStore.Merge` | src/aitp_playground/runner/store.py:48-54 | whole new state |
| `RunStores.RunStore.MergeUnlessCancelled` | src/aitp_playground/runner/store.py:36-46 | whole new state and result |
| `RunStores.RunStore.Append` | src/aitp_playground/runner/store.py:56-62 | whole new state and the subscribers to notify |
| `RunStores.RunStore.Attach` | src/aitp_playground/runner/store.py:72-80 | backlog and registration |
| `RunStores.RunStore.Detach` | src/aitp_playground/runner/store.py:82-85 | exactly that queue goes, in order |
| `SqliteStores.SidecarRefinesMemory` | src/aitp_playground/runner/store.py:155-233 | after any sequence of event-free upserts, conditional upserts, appends and restarts, reading the tables back gives exactly the runs in memory; stored numbers are 0..n-1 |
| `SqliteStores.RestartForgetsSubscribers` | src/aitp_playground/runner/store.py:104-112 | a restart keeps the runs and forgets the subscribers |
| `SqliteStores.UpsertMirrorsIffEventFree` | src/aitp_playground/runner/store.py:183-206 | an upsert keeps that exactly when it carries no events |
| `SqliteRaces.RowsMirrorIffNotOvertaken` | src/aitp_playground/runner/store.py:214-233 | any number of threads, any schedule: at the end the rows mirror the log exactly when no append was overtaken by another between its memory step and its reading of the sequence number |
| `SqliteRaces.LogReadsBackIffNotOvertaken` | src/aitp_playground/runner/store.py:167-171 | and exactly then a restart reads the log back; otherwise events are lost |
| `SqliteRaces.TwoAppendsMirrorIff` | src/aitp_playground/runner/store.py:214-230 | two appends: exactly when the one that appended first reads its number before the other's memory step |
| `SqliteRaces.StoredStatusIff` | src/aitp_playground/runner/store.py:183-212 | when memory takes on its final status at some turn, never having held it before, and some row was written: the stored status is that one exactly when the last row write carries a snapshot taken after that turn |
| `SqliteRaces.StoredIsSnapshot` | src/aitp_playground/runner/store.py:183-202 | the stored scalars are those memory had at the snapshot behind the last row write |
| `SqliteRaces.CancelLostOnRestart` | src/aitp_playground/runner/store.py:183-212 | a schedule in which a cancelled run is stored as running |
| `SqliteStores.SqliteRunStore.Hydrate` | src/aitp_playground/runner/store.py:155-175 | memory after reading the tables |
| `SqliteStores.SqliteRunStore.Merge` | src/aitp_playground/runner/store.py:204-206 | memory and tables after an upsert |
| `SqliteStores.SqliteRunStore.MergeUnlessCancelled` | src/aitp_playground/runner/store.py:208-212 | memory and tables after a conditional upsert |
| `SqliteStores.SqliteRunStore.AppendRow` | src/aitp_playground/runner/store.py:214-233 | memory and tables after an append with no other thread in between |
| `RunLifecycles.OneTerminalOutcome` | src/aitp_playground/runner/engine.py:126-351 | every finished run has exactly one terminal event, as its last milestone, and the matching status |
| `RunLifecycles.CancelledIffACancelLanded` | src/aitp_playground/api/runs.py:336-354 | a run is cancelled exactly when some cancel reached it before it ended |
| `RunLifecycles.OutcomeIsFinal` | src/aitp_playground/runner/engine.py:411-428 | the outcome of a finished run never changes again |
| `RunLifecycles.FinishWrites` | src/aitp_playground/runner/engine.py:324-330 | a run that finishes uncancelled records its outputs and no error and logs `run.complete`; a cancelled one writes nothing |
| `RunLifecycles.FailWrites` | src/aitp_playground/runner/engine.py:305-316 | a run that fails uncancelled records the error and logs `run.failed` with its code |
| `RunLifecycles.CancelWrites` | src/aitp_playground/api/runs.py:346-348 | a cancel that lands changes the status alone and logs `run.cancelled` |
| `RunLifecycles.StartWrites` | src/aitp_playground/runner/engine.py:126-177 | a start records what was asked for and logs `run.started` before anything else; bad inputs follow with their code |
| `RunLifecycles.CreateWrites` | src/aitp_playground/api/runs.py:97-105 | a request is recorded as pending and logs nothing |
| `RunLifecycles.ActAllLogs` | src/aitp_playground/runner/context.py:54-59 | a stretch of the engine logs each of its events once, in order |
| `RunLifecycles.BeginKeeps` | src/aitp_playground/runner/engine.py:126-177 | a run cancelled while pending writes nothing at all |
| `RunLifecycles.ScenarioRunner.Run` | src/aitp_playground/runner/engine.py:126-177 | store and phase after the opening of a run |
| `RunLifecycles.ScenarioRunner.Go` | src/aitp_playground/runner/engine.py:281-330 | store and phase after a stretch between awaits |
| `RunLifecycles.ScenarioRunner.ReportFailure` | src/aitp_playground/runner/engine.py:305-316 | store after the failure branch |
| `RunLifecycles.ScenarioRunner.Conclude` | src/aitp_playground/runner/engine.py:411-428 | store after `_finalize_failure` |
| `RunLifecycles.CancelRoute` | src/aitp_playground/api/runs.py:336-354 | store and answer of the cancel route, uninterrupted |
| `RunRaces.OneOutcomeIff` | src/aitp_playground/runner/engine.py:126-428 | at thread granularity from the pending record on, any number of cancels, any schedule, and refused, bad-input, failing and finishing runs alike: one outcome is reached exactly when no cancel landed, or a single one did, wrote before the engine's settling look, and did not log between the engine's look and its `run.started`; and how many endings the log has otherwise |
| `RunRaces.LandsIff` | src/aitp_playground/api/runs.py:336-346 | a cancel lands exactly when its check comes before any other's write and before the engine's terminal status |
| `RunRaces.TwoCancelsLogTwice` | src/aitp_playground/api/runs.py:336-348 | two cancels that both check first always leave two endings |
| `RunRaces.BadInputsOverCancel` | src/aitp_playground/runner/engine.py:161-177 | a schedule in which bad inputs are reported over a cancellation |
| `RunRaces.RefusalOverCancel` | src/aitp_playground/runner/engine.py:138-155 | a schedule in which a refusal is reported over a cancellation |
| `RunRaces.StartOverCancel` | src/aitp_playground/runner/engine.py:159-165 | a schedule in which `run.started` follows `run.cancelled` |
| `RunRaces.CancelOverSuccess` | src/aitp_playground/api/runs.py:336-348 | a schedule in which a cancel overwrites a success |
| `RunRaces.FailureOverCancel` | src/aitp_playground/runner/engine.py:421-427 | a schedule in which `_finalize_failure` overwrites a cancellation |
| `MetricFolds.RunsActiveIsLogCount` | src/aitp_playground/observability/metrics.py:157-171 | for every event stream with run ids, `runs_active` is the number of runs started and not ended in the log |
| `MetricFolds.RunsTotalIsLogCount` | src/aitp_playground/observability/metrics.py:175-180 | the `runs_total` series sum to the number of terminal events |
| `MetricFolds.EverySeriesIsLogCount` | src/aitp_playground/observability/metrics.py:145-227 | every series of every counter, label by label, is the number of events so far that it counts, and all others are zero |
| `MetricFolds.RefusedIsLogCount` | src/aitp_playground/observability/metrics.py:168-174 | refusals per code are the failures of runs not active at the time |
| `MetricFolds.GaugeDriftsIff` | src/aitp_playground/observability/metrics.py:92-97 | exactly which events break the gauge |
| `MetricRaces.GaugeIsRightIff` | src/aitp_playground/observability/metrics.py:157-170 | two locked visits per event, any interleaving, runs that start and end at most once: the gauge ends at the number of runs the log shows active exactly when no decrement found it at zero and no end made its first visit before its run's start |
| `MetricRaces.GaugeIsRightIffBalanced` | src/aitp_playground/observability/metrics.py:157-170 | for any stream with run ids: exactly when the floor acted as often as the log's active runs outnumber the registry's |
| `MetricRaces.GaugeCountsStarted` | src/aitp_playground/observability/metrics.py:56-97 | the gauge ends above the registry's own set by the decrements that found it at zero |
| `MetricRaces.StartedCoversActive` | src/aitp_playground/observability/metrics.py:56-71 | the set ends with every active run, and with no other exactly when the visits kept the log's order |
| `MetricRaces.EndRecordedFirst` | src/aitp_playground/runner/context.py:54-67 | a schedule without any floor hit that leaves an ended run counted |
| `MetricRaces.TwoVisitsAreOne` | src/aitp_playground/observability/metrics.py:157-170 | uninterrupted, the two visits are the sequential `record_event` |
| `MetricRaces.EndOvertakesStart` | src/aitp_playground/observability/metrics.py:158-170 | a schedule that leaves the gauge at one with no run active |
| `MetricFolds.CountersBalance` | src/aitp_playground/observability/metrics.py:182-224 | tokens issued equal handshakes plus redemptions, and capability calls never exceed the steps they belong to |
| `MetricFolds.FinishedRunCountsOnce` | src/aitp_playground/runner/context.py:54-70 | the log of a run that ended leaves the gauge at zero and adds one to `runs_total` |
| `MetricFolds.EscapeIsCharWise` | src/aitp_playground/observability/metrics.py:233-235 | the three replacements are one character-wise escape |
| `MetricFolds.EscapeReadsBack` | src/aitp_playground/observability/metrics.py:271-274 | a label value reads back up to its closing quote, whatever follows |
| `MetricFolds.EscapedCharIsCanonical` | src/aitp_playground/observability/metrics.py:233-235 | the escape of a character is the only text that reads as it, so nothing is escaped that need not be |
| `MetricFolds.Metrics.Record` | src/aitp_playground/observability/metrics.py:145-227 | whole new registry for every event |
| `MetricFolds.Metrics.MoveGauge` | src/aitp_playground/observability/metrics.py:92-97 | new gauge, clamped at the floor |
| `TokenBuckets.WindowBound` | src/aitp_playground/limits.py:41-60 | every key gets at most burst + rate * length grants in every interval of every run, with pruning |
| `TokenBuckets.UnorderedWindowBound` | src/aitp_playground/limits.py:41-49 | the limiter without pruning keeps that bound however the clock readings are ordered |
| `TokenBuckets.AllowedIffEveryWindowConforms` | src/aitp_playground/limits.py:41-60 | a call is allowed exactly when one more grant keeps every window so far within its budget |
| `TokenBuckets.LevelIsTightestBudget` | src/aitp_playground/limits.py:41-49 | the level a call finds is the tightest of all window budgets |
| `TokenBuckets.PruningIsUnobservable` | src/aitp_playground/limits.py:25-60 | dropping full buckets changes no verdict of any run |
| `TokenBuckets.SimulatesUnpruned` | src/aitp_playground/limits.py:50-60 | the simulation: same entry, or missing where the other is full |
| `TokenBuckets.AboveLimitNoneIsFull` | src/aitp_playground/limits.py:50-60 | with more than ten thousand keys the table holds no full bucket |
| `TokenBuckets.TokenBucket.TryTake` | src/aitp_playground/limits.py:41-52 | verdict and new buckets |
| `RollingCaps.AcquiredIffRoom` | src/aitp_playground/limits.py:73-81 | an acquisition succeeds exactly when fewer than the limit of all earlier successes lie less than the window ago |
| `RollingCaps.WindowNeverOverfull` | src/aitp_playground/limits.py:63-81 | no rolling window ever holds more than the limit |
| `RollingCaps.DequeIsSuffix` | src/aitp_playground/limits.py:76-80 | the deque is the success history without a prefix that left the window for good |
| `RollingCaps.RollingCap.TryAcquire` | src/aitp_playground/limits.py:73-81 | verdict and new deque |
| `SpendLimits.AdmittedIff` | src/aitp_playground/api/_deps.py:125-141 | in every interleaving of the requests' visits, a request is admitted exactly when both buckets let it through and fewer than the cap were admitted in the last hour; refused requests, and those still on their way, use up none of it |
| `SpendLimits.LetThroughIff` | src/aitp_playground/api/_deps.py:132 | in every interleaving a bucket lets a visit through exactly when, counting only that address's (or key's) own visits, one more grant keeps every window within burst + rate * length |
| `SpendLimits.BucketSees` | src/aitp_playground/limits.py:41-52 | each bucket is where the calls it saw, alone, would have brought it |
| `SpendLimits.HourlyCapAcrossCallers` | src/aitp_playground/api/_deps.py:136-141 | all callers together stay within the hourly cap in every window, however their requests overlap |
| `SpendLimits.PerIpBound` | src/aitp_playground/api/_deps.py:132-135 | of one address's requests that reach its bucket in an interval, at most burst + rate * length are ever admitted |
| `SpendLimits.PerKeyBound` | src/aitp_playground/api/_deps.py:132-135 | the same for a key, although its bucket sees only what the first let through |
| `SpendLimits.SpendLimits.Check` | src/aitp_playground/api/_deps.py:125-141 | outcome and new state of the three limiters for a request nobody interrupts: its three visits in a row |
| `PortAllocators.NeverClash` | src/aitp_playground/hosting/port_allocator.py:22-45 | a port is handed out again only after it was released or the allocator reset |
| `PortAllocators.GivenIsChosen` | src/aitp_playground/hosting/port_allocator.py:22-39 | a slot neither held nor pooled is handed out on request, else the pooled port released last, else the next slot |
| `PortAllocators.NeverDrifts` | src/aitp_playground/hosting/port_allocator.py:22-45 | every port ever handed out is below base + largest offset + peak simultaneous allocations |
| `PortAllocators.DriftBoundIsTight` | src/aitp_playground/hosting/port_allocator.py:22-39 | and that bound is attained, for every largest offset |
| `PortAllocators.RunIsValid` | src/aitp_playground/hosting/port_allocator.py:14-51 | pool duplicate-free and disjoint from in-use, everything touched below `_next`, so the skip loop never advances |
| `PortAllocators.InUseIffHeld` | src/aitp_playground/hosting/port_allocator.py:22-45 | a port is marked in use exactly while some allocation holds it |
| `PortAllocators.CleanupTwiceIsOnce` | src/aitp_playground/runner/engine.py:315-318 | the second cleanup of a failed run releases nothing |
| `PortAllocators.PortAllocator.Take` | src/aitp_playground/hosting/port_allocator.py:22-39 | port and new state on all three paths |
| `PortAllocators.PortAllocator.GiveBack` | src/aitp_playground/hosting/port_allocator.py:41-45 | new state of a release |
| `Delegations.TokenCarriesHops` | src/aitp_playground/runner/engine.py:548-552 | the issuer manifest list attached to a token is its hops' delegators, first to last, by the recursive definition over the step history |
| `Delegations.HeldChainIsHops` | src/aitp_playground/runner/engine.py:63-73 | the scan finds the chain of the latest redemption |
| `Delegations.RedemptionCarriesHops` | src/aitp_playground/runner/engine.py:611-616 | a redemption carries the hops of the token it redeemed |
| `Delegations.AllHopsHaveUrls` | src/aitp_playground/runner/engine.py:548-551 | a chain of k hops has k URLs |
| `Delegations.GoesOnIff` | src/aitp_playground/runner/engine.py:515-621 | a workflow is under way after k steps exactly when each of them names running agents, was answered, and redeems, if anything, the token of an earlier delegate step |
| `Delegations.PutAssigns` | src/aitp_playground/runner/engine.py:552-616 | assigning an output changes what its id finds and no other, and keeps the places |
| `Delegations.ChainIsTrueIff` | src/aitp_playground/runner/engine.py:63-73 | the hops the engine attaches are those really behind the grant exactly when, at the pair and at every hop behind it, the token the scan assumes is the one held |
| `Delegations.AssumedIsHeldIff` | src/aitp_playground/runner/engine.py:498-616 | and when that is: the latest grant is an unprobed redemption; or a handshake, or none, with no redemption before; or a granted probe of the token redeemed last |
| `Delegations.UnbrokenTokenCarriesTrueHops` | src/aitp_playground/runner/engine.py:548-552 | then the attached list names the delegators of the true hops, in order |
| `Delegations.HandshakeKeepsChain` | src/aitp_playground/runner/engine.py:498-513 | a workflow in which a handshake after a redemption leaves a chain that is no longer true |
| `Delegations.ProbeLosesChain` | src/aitp_playground/runner/engine.py:590-608 | a workflow in which a granted probe leaves a token short of a hop |
| `Delegations.Workflow.ScanHeldChain` | src/aitp_playground/runner/engine.py:63-73 | the loop from the newest output is the recursive scan |
| `Delegations.Workflow.Dispatch` | src/aitp_playground/runner/engine.py:515-621 | outputs after a step, and when it raises |
| `JcsReader.SameTextIffSame` | tests/unit/_jcs_reference.py:242-295 | two values have the same canonical text exactly when they are equal up to member order |
| `JcsReader.ReadInvertsText` | tests/unit/_jcs_reference.py:242-295 | a strict reader recovers every value from its canonical text |
| `JcsReader.EveryValueReadsBack` | tests/unit/_jcs_reference.py:242-288 | the same inside any surrounding text |
| `JcsSerializer.Dumps` | tests/unit/_jcs_reference.py:291-295 | yields the canonical text exactly for values inside the depth and node limits |
| `JcsSerializer.LimitsAreOrderBlind` | tests/unit/_jcs_reference.py:232-255 | values equal up to member order are accepted or refused together |
| `JcsSerializer.LimitsAre` | tests/unit/_jcs_reference.py:188-229 | 256 arrays may be nested and 199999 nulls may stand in one, no more |
| `JcsSerializer.Serializer.Serialize` | tests/unit/_jcs_reference.py:242-288 | output and visit count of the in-place serializer |
| `JcsSerializer.Serializer.Visit` | tests/unit/_jcs_reference.py:232-239 | the counter box |
| `JcsJson.SameImpliesSameText` | tests/unit/_jcs_reference.py:273-286 | member order does not show in the text |
| `JcsJson.MembersAreInNameOrder` | tests/unit/_jcs_reference.py:273-286 | an object is written with its members in the one arrangement that is in name order |
| `JcsOrder.ByteOrderIsUnitOrder` | tests/unit/_jcs_reference.py:276-277 | comparing UTF-16-BE bytes is comparing code units (RFC 8785 section 3.2.3) |
| `JcsOrder.NameOrderIsByFirstDifference` | tests/unit/_jcs_reference.py:276-277 | names are ordered by their first difference: by code point, but characters outside the BMP between U+D7FF and U+E000 |
| `JcsOrder.NameOrderIsStrictTotal` | tests/unit/_jcs_reference.py:276-277 | distinct names are ordered exactly one way |
| `JcsOrder.NotCodePointOrder` | tests/unit/_jcs_reference.py:276-277 | that order is not the order of code points: a pair of names |
| `JcsOrder.SortSorts` | tests/unit/_jcs_reference.py:277 | members come out strictly increasing |
| `JcsOrder.SortPermutes` | tests/unit/_jcs_reference.py:277 | and are the members that went in |
| `JcsOrder.SortForgetsOrder` | tests/unit/_jcs_reference.py:277 | in an order that does not depend on how they came in |
| `JcsNumbers.PrintAlikeIffEqual` | tests/unit/_jcs_reference.py:93-139 | two numbers print alike exactly when equal (RFC 8785 section 3.2.2.3) |
| `JcsNumbers.FormatDenotes` | tests/unit/_jcs_reference.py:103-121 | the printed text denotes exactly the number |
| `JcsNumbers.FormatHasShape` | tests/unit/_jcs_reference.py:103-121 | no leading or trailing zero, and an exponent, if any, with a lower-case mark, a sign, and one nonzero digit before the point |
| `JcsNumbers.LayoutDenotes` | tests/unit/_jcs_reference.py:111-120 | each of the four layouts denotes 0.digits * 10^n |
| `JcsNumbers.ShortestDigitsExact` | tests/unit/_jcs_reference.py:124-139 | the digits have no leading or trailing zero and denote the number the text denotes |
| `JcsNumbers.PlainIffInRange` | tests/unit/_jcs_reference.py:111-120 | no exponent exactly for magnitudes in [1e-6, 1e21) |
| `JcsDecimals.CanonicalIsUnique` | tests/unit/_jcs_reference.py:124-139 | a number has at most one (digits, n) |
| `JcsStrings.StringReads` | tests/unit/_jcs_reference.py:155-167 | every string reads back from its escaped text (RFC 8785 section 3.2.2.2) |
| `JcsStrings.EscapedIsCanonical` | tests/unit/_jcs_reference.py:144-165 | the text of a character is the shortest that spells it, with lower-case digits; no other is both |
| `JcsStrings.EscapedReads` | tests/unit/_jcs_reference.py:144-165 | every single character does, taking exactly its own text |
| `JcsStrings.WriteString` | tests/unit/_jcs_reference.py:155-167 | the loop writes the escaped text |

## Left out

- SDK cryptography, JWS, base64, HMAC and JSON decoding: abstract answers given with a step; the envelope decoded after verification is taken to carry what was signed.
- HTTP plumbing, subprocesses, TLS, OIDC, the control-plane client, dashboard, CLI, YAML registry and LLM code.
- Floats: rounding, NaN, infinities and integers too large for a float; a number is the decimal text that `repr` gives, taken as exact.
- Strings with lone surrogates, which Dafny's characters exclude: in the source a member name with one fails in the sort's UTF-16 encoding, while a string value with one passes through.
- Aliased or cyclic Python values, for which the node limit of the canonicalizer exists; the model's values are trees.
- RevocationProtocols.LatencyBound: assumes that entries are never withdrawn at the control plane, that a jti is recorded for a key only after that key was installed, and that both sides read one clock; the delay counts from the control plane's answer, or from the start of the pull when the key changed during it.
- CapabilityCalls.MintedWithinLatency: covers the sources this agent issued; revocations of hop tokens issued by peers reach it only through its own list.
- RunLifecycles.OneTerminalOutcome: assumes the engine's own events, agent telemetry and webhook deliveries carry no run milestone of their own, and that the run id is new.
- RunRaces.OneOutcomeIff: starts from a record `POST /runs` made pending; the engine's other writes about the run are taken to carry no status and no milestone.
- EventBus.BacklogThenDeliveriesIsTheLog: stops at the store's bus; the SSE stream and its `stream.end` are not modelled.
- SqliteStores.SidecarRefinesMemory: one thread at a time, and no unreadable rows; threads are in `SqliteRaces`.
- SqliteRaces.RowsMirrorIffNotOvertaken: threads that call about the same run, each once, with event-free upserts; calls about other runs touch other rows.
- MetricFolds.RunsActiveIsLogCount: events are recorded one at a time; interleaved records are in `MetricRaces`, for the gauge and the set alone.
- MetricFolds.Metrics.Record: the help texts, `set`, `reset`, `snapshot` and the layout of the exposition text are not modelled, except for label values.
- TCT cache counters, telemetry emission and log lines.
- Delegations.TokenCarriesHops: steps have distinct ids; whether the agents accept a chain is theirs and the SDK's to say.
- Delegations.Workflow.Dispatch: step types other than handshakes, delegations and redemptions only leave an unrelated output; handshakes before the workflow leave every pair without a redemption, and a renewed grant keeps the hops it had.
- Delegations.UnbrokenTokenCarriesTrueHops: one way only, since two agents may share a manifest URL; hop by hop `ChainIsTrueIff` goes both ways.
- Whether a port the allocator hands out is free on the host.
- TokenBuckets.WindowBound: here, in `RollingCaps` and in `SpendLimits`, the source reads the clock just before it takes the lock, and the readings are taken to be in lock order; without that order there is `UnorderedWindowBound`, for the limiter that does not prune.
- Client address and API-key parsing in `api/_deps.py`, and the settings the limits are read from.
